/** Where every input document ends up, and what the survivors are made of. These results
    hold for every input list. */
module PolicyProvenance {
  import opened Wrappers
  import opened Sequences
  import opened PolicyDocuments
  import opened PolicyDedup

  // ---- conservation -----------------------------------------------------------------

  function LeavesAt(slot: Option<Tree>): set<nat> {
    match slot
    case None => {}
    case Some(t) => Leaves(t)
  }

  /** The history names each input position at most once, with the right document. */
  ghost predicate Faithful(docs: seq<Document>, t: Tree) {
    match t
    case Leaf(pos, doc) => pos < |docs| && docs[pos] == doc
    case Node(left, right) => Faithful(docs, left) && Faithful(docs, right) && Leaves(left) !! Leaves(right)
  }

  ghost predicate Housed(slots: seq<Option<Tree>>, p: nat) {
    exists i :: 0 <= i < |slots| && p in LeavesAt(slots[i])
  }

  /** Every input position is folded into exactly one slot, once. */
  ghost predicate Partition(docs: seq<Document>, slots: seq<Option<Tree>>) {
    && (forall i :: 0 <= i < |slots| && slots[i].Some? ==> Faithful(docs, slots[i].value))
    && (forall i, j :: 0 <= i < j < |slots| ==> LeavesAt(slots[i]) !! LeavesAt(slots[j]))
    && (forall p :: 0 <= p < |docs| ==> Housed(slots, p))
  }

  lemma {:induction false} LeavesInRange(docs: seq<Document>, t: Tree)
    requires Faithful(docs, t)
    ensures forall p :: p in Leaves(t) ==> p < |docs|
  {
    match t
    case Leaf(_, _) =>
    case Node(left, right) =>
      LeavesInRange(docs, left);
      LeavesInRange(docs, right);
  }

  lemma {:induction false} FaithfulExtends(docs: seq<Document>, d: Document, t: Tree)
    requires Faithful(docs, t)
    ensures Faithful(docs + [d], t)
  {
    match t
    case Leaf(_, _) =>
    case Node(left, right) =>
      FaithfulExtends(docs, d, left);
      FaithfulExtends(docs, d, right);
  }

  lemma {:induction false} AbsorbPartition(docs: seq<Document>, slots: seq<Option<Tree>>, target: nat, e: nat)
    requires target < |slots| && slots[target].Some? && e < |slots| && e != target
    requires Partition(docs, slots)
    ensures Partition(docs, Absorb(slots, target, e))
  {
    var r := Absorb(slots, target, e);
    assert LeavesAt(slots[target]) !! LeavesAt(slots[e]);
    assert LeavesAt(r[target]) == LeavesAt(slots[target]) + LeavesAt(slots[e]);
    assert LeavesAt(r[e]) == {};
    forall p | 0 <= p < |docs|
      ensures Housed(r, p)
    {
      assert Housed(slots, p);
      var i :| 0 <= i < |slots| && p in LeavesAt(slots[i]);
      var home := if i == e then target else i;
      assert p in LeavesAt(r[home]);
    }
  }

  lemma {:induction false} FoldPartition(docs: seq<Document>, slots: seq<Option<Tree>>, target: nat, extras: seq<nat>)
    requires Foldable(slots, target, extras) && Partition(docs, slots)
    ensures Partition(docs, FoldExtras(slots, target, extras))
  {
    if extras != [] {
      FoldPartition(docs, slots, target, extras[..|extras| - 1]);
      AbsorbPartition(docs, FoldExtras(slots, target, extras[..|extras| - 1]), target, extras[|extras| - 1]);
    }
  }

  lemma {:induction false} OccupantLeaves(slot: Option<Tree>, pos: nat, d: Document)
    ensures Leaves(Occupant(slot, pos, d)) == LeavesAt(slot) + {pos}
  {
    assert Leaves(Leaf(pos, d)) == {pos};
  }

  /** An arriving document joins the leaves of one slot. */
  lemma {:induction false} PlacePartition(docs: seq<Document>, slots: seq<Option<Tree>>, d: Document, i: nat, slots': seq<Option<Tree>>)
    requires Partition(docs, slots)
    requires i < |slots'| && |slots| <= |slots'| <= |slots| + 1 && |slots'| == (if i < |slots| then |slots| else i + 1)
    requires forall j :: 0 <= j < |slots| && j != i ==> slots'[j] == slots[j]
    requires slots'[i] == Some(Occupant(if i < |slots| then slots[i] else None, |docs|, d))
    ensures Partition(docs + [d], slots')
  {
    var docs' := docs + [d];
    forall j | 0 <= j < |slots| && slots[j].Some?
      ensures Faithful(docs', slots[j].value) && |docs| !in Leaves(slots[j].value)
    {
      LeavesInRange(docs, slots[j].value);
      FaithfulExtends(docs, d, slots[j].value);
    }
    var was := if i < |slots| then LeavesAt(slots[i]) else {};
    OccupantLeaves(if i < |slots| then slots[i] else None, |docs|, d);
    forall p | 0 <= p < |docs'|
      ensures Housed(slots', p)
    {
      if p < |docs| {
        assert Housed(slots, p);
        var j :| 0 <= j < |slots| && p in LeavesAt(slots[j]);
        assert p in LeavesAt(slots'[j]);
      } else {
        assert p in LeavesAt(slots'[i]);
      }
    }
  }

  lemma {:induction false} StepPartition(docs: seq<Document>, s: State, d: Document)
    requires InRange(s) && Partition(docs, s.slots)
    ensures Partition(docs + [d], Step(s, |docs|, d).slots)
  {
    var matched := SortedIndexes(Matched(s, d));
    if matched == [] {
      PlacePartition(docs, s.slots, d, |s.slots|, s.slots + [Some(Leaf(|docs|, d))]);
    } else {
      MatchedIsFoldable(s, d);
      var target := matched[0];
      var placed := s.slots[target := Some(Occupant(s.slots[target], |docs|, d))];
      PlacePartition(docs, s.slots, d, target, placed);
      FoldPartition(docs + [d], placed, target, matched[1..]);
    }
  }

  lemma {:induction false} RunPartition(docs: seq<Document>)
    ensures Partition(docs, Run(docs).slots)
  {
    if docs != [] {
      var init, last := docs[..|docs| - 1], docs[|docs| - 1];
      RunPartition(init);
      StepPartition(init, Run(init), last);
      assert docs == init + [last];
    }
  }

  function Vacated(slots: seq<Option<Tree>>): nat {
    if slots == [] then 0
    else Vacated(slots[..|slots| - 1]) + (if slots[|slots| - 1].None? then 1 else 0)
  }

  lemma {:induction false} LiveAndVacated(slots: seq<Option<Tree>>)
    ensures |Live(slots)| + Vacated(slots) == |slots|
    ensures forall t :: t in Live(slots) <==> Some(t) in slots
  {
    if slots != [] {
      LiveAndVacated(slots[..|slots| - 1]);
      assert slots == slots[..|slots| - 1] + [slots[|slots| - 1]];
    }
  }

  lemma {:induction false} SlotsAndFolds(docs: seq<Document>)
    ensures |Run(docs).slots| + Run(docs).dedupedCount == |docs|
  {
    if docs != [] {
      SlotsAndFolds(docs[..|docs| - 1]);
    }
  }

  /** No input is lost or used twice, whatever the input list. */
  lemma {:induction false} Conservation(docs: seq<Document>)
    ensures Partition(docs, Run(docs).slots)
    ensures |Survivors(docs)| + Run(docs).dedupedCount + Vacated(Run(docs).slots) == |docs|
    ensures multiset(Survivors(docs)) == multiset(EvalAll(Live(Run(docs).slots)))
  {
    RunPartition(docs);
    SlotsAndFolds(docs);
    LiveAndVacated(Run(docs).slots);
    SortIsDescendingPermutation(EvalAll(Live(Run(docs).slots)), SortKey);
  }

  // ---- what one arrival does ---------------------------------------------------------------

  /** p is folded into one of the slots. */
  ghost predicate InSome(slots: seq<Option<Tree>>, which: seq<nat>, p: nat) {
    exists i :: 0 <= i < |which| && which[i] < |slots| && p in LeavesAt(slots[which[i]])
  }

  lemma {:induction false} FoldEmpties(slots: seq<Option<Tree>>, target: nat, extras: seq<nat>)
    requires Foldable(slots, target, extras)
    ensures var r := FoldExtras(slots, target, extras);
      && (forall i :: 0 <= i < |r| && i != target ==> r[i] == if i in extras then None else slots[i])
      && (forall p :: p in LeavesAt(r[target]) <==> p in LeavesAt(slots[target]) || InSome(slots, extras, p))
  {
    if extras != [] {
      var init, e := extras[..|extras| - 1], extras[|extras| - 1];
      FoldEmpties(slots, target, init);
      var before, r := FoldExtras(slots, target, init), FoldExtras(slots, target, extras);
      assert extras == init + [e];
      forall p
        ensures p in LeavesAt(r[target]) <==> p in LeavesAt(slots[target]) || InSome(slots, extras, p)
      {
        assert p in LeavesAt(r[target]) <==> p in LeavesAt(before[target]) || p in LeavesAt(before[e]);
        InSomeMore(slots, init, e, p);
        if e in init {
          var i :| 0 <= i < |init| && init[i] == e;
          assert p in LeavesAt(slots[e]) ==> InSome(slots, init, p);
        }
      }
    }
  }

  lemma {:induction false} InSomeMore(slots: seq<Option<Tree>>, init: seq<nat>, e: nat, p: nat)
    ensures InSome(slots, init + [e], p) <==> InSome(slots, init, p) || (e < |slots| && p in LeavesAt(slots[e]))
  {
    var all := init + [e];
    if InSome(slots, init, p) {
      var i :| 0 <= i < |init| && init[i] < |slots| && p in LeavesAt(slots[init[i]]);
      assert all[i] == init[i];
    }
    assert all[|init|] == e;
  }

  /** p is folded into a slot the arriving document matches. */
  ghost predicate InMatched(s: State, d: Document, p: nat) {
    exists i :: i in Matched(s, d) && i < |s.slots| && p in LeavesAt(s.slots[i])
  }

  /** The lowest matched slot and the ascending rest. */
  lemma {:induction false} LowestAndRest(s: State, d: Document) returns (target: nat, rest: seq<nat>)
    requires InRange(s) && Matched(s, d) != {}
    ensures target == Least(Matched(s, d)) && SortedIndexes(Matched(s, d)) == [target] + rest
    ensures forall i :: i in Matched(s, d) <==> i == target || i in rest
    ensures target < |s.slots| && forall i :: 0 <= i < |rest| ==> rest[i] < |s.slots| && rest[i] != target
  {
    var m := Matched(s, d);
    SortedIndexesFacts(m);
    MatchedIsFoldable(s, d);
    target, rest := Least(m), SortedIndexes(m - {Least(m)});
    assert SortedIndexes(m) == [target] + rest;
    SortedIndexesFacts(m - {target});
    forall i | 0 <= i < |rest|
      ensures rest[i] < |s.slots| && rest[i] != target
    {
      assert SortedIndexes(m)[i + 1] == rest[i];
    }
  }

  lemma {:induction false} StepParts(s: State, pos: nat, d: Document, target: nat, rest: seq<nat>)
    requires InRange(s) && SortedIndexes(Matched(s, d)) == [target] + rest && target < |s.slots|
    requires forall i :: 0 <= i < |rest| ==> rest[i] < |s.slots| && rest[i] != target
    ensures var placed := s.slots[target := Some(Occupant(s.slots[target], pos, d))];
            var slots := FoldExtras(placed, target, rest);
            Step(s, pos, d) == State(slots, Reindex(s.index, KeySet(Eval(slots[target].value)), target), s.dedupedCount + 1)
  {
    hide Occupant, FoldExtras, Reindex, KeySet, Eval, SortedIndexes, Matched;
    MatchedIsFoldable(s, d);
    assert ([target] + rest)[1..] == rest;
  }

  /** Folded into the lowest or into one of the rest: folded into a matched slot. */
  lemma {:induction false} InMatchedParts(s: State, pos: nat, d: Document, target: nat, rest: seq<nat>, p: nat)
    requires target < |s.slots| && forall i :: 0 <= i < |rest| ==> rest[i] < |s.slots| && rest[i] != target
    requires forall i :: i in Matched(s, d) <==> i == target || i in rest
    ensures var placed := s.slots[target := Some(Occupant(s.slots[target], pos, d))];
            InSome(placed, rest, p) || p in LeavesAt(s.slots[target]) <==> InMatched(s, d, p)
  {
    hide Matched, Occupant, LeavesAt;
    var placed := s.slots[target := Some(Occupant(s.slots[target], pos, d))];
    if InSome(placed, rest, p) {
      var i :| 0 <= i < |rest| && rest[i] < |placed| && p in LeavesAt(placed[rest[i]]);
      assert rest[i] in rest && p in LeavesAt(s.slots[rest[i]]);
    }
    if InMatched(s, d, p) {
      var i :| i in Matched(s, d) && i < |s.slots| && p in LeavesAt(s.slots[i]);
      if i != target {
        var j :| 0 <= j < |rest| && rest[j] == i;
        assert p in LeavesAt(placed[rest[j]]);
      }
    }
  }

  /** An arriving document that matches slots ends up in the lowest of them, together with
      everything the others held; the others are vacated, all other slots stay, the document
      counts as deduplicated, and only keys of the merged document change their slot. */
  lemma {:induction false} ArrivalFoldsMatches(s: State, pos: nat, d: Document)
    requires InRange(s) && Matched(s, d) != {}
    ensures var r, target := Step(s, pos, d), Least(Matched(s, d));
      && |r.slots| == |s.slots| && target < |r.slots| && r.slots[target].Some?
      && r.dedupedCount == s.dedupedCount + 1
      && (forall i :: 0 <= i < |r.slots| && i != target ==>
            r.slots[i] == if i in Matched(s, d) then None else s.slots[i])
      && (forall p :: p in LeavesAt(r.slots[target]) <==> p == pos || InMatched(s, d, p))
      && r.index == Reindex(s.index, KeySet(Eval(r.slots[target].value)), target)
  {
    var target, rest := LowestAndRest(s, d);
    StepParts(s, pos, d, target, rest);
    var placed := s.slots[target := Some(Occupant(s.slots[target], pos, d))];
    OccupantLeaves(s.slots[target], pos, d);
    assert LeavesAt(placed[target]) == LeavesAt(s.slots[target]) + {pos};
    hide Step, FoldExtras, Matched, Reindex, KeySet, Eval, Occupant, LeavesAt, InSome, InMatched, Least, SortedIndexes, Leaves;
    FoldEmpties(placed, target, rest);
    forall p
      ensures InSome(placed, rest, p) || p in LeavesAt(s.slots[target]) <==> InMatched(s, d, p)
    {
      InMatchedParts(s, pos, d, target, rest, p);
    }
  }

  // ---- a survivor is the join of its inputs --------------------------------------------

  ghost predicate IsMaxOver(docs: seq<Document>, ps: set<nat>, measure: Document -> nat, value: nat) {
    && (forall p :: p in ps && p < |docs| ==> measure(docs[p]) <= value)
    && (exists p :: p in ps && p < |docs| && measure(docs[p]) == value)
  }

  ghost predicate IsUnionOver(docs: seq<Document>, ps: set<nat>, part: Document -> set<string>, value: set<string>) {
    forall x :: x in value <==> exists p :: p in ps && p < |docs| && x in part(docs[p])
  }

  lemma {:induction false} MaxOverUnion(docs: seq<Document>, ps: set<nat>, qs: set<nat>, measure: Document -> nat, v: nat, w: nat)
    requires IsMaxOver(docs, ps, measure, v) && IsMaxOver(docs, qs, measure, w)
    ensures IsMaxOver(docs, ps + qs, measure, Max(v, w))
  {
    var side := if v <= w then qs else ps;
    var p :| p in side && p < |docs| && measure(docs[p]) == Max(v, w);
    assert p in ps + qs;
  }

  lemma {:induction false} TreeMax(docs: seq<Document>, t: Tree, measure: Document -> nat)
    requires Faithful(docs, t)
    requires forall a, b :: measure(Merge(a, b)) == Max(measure(a), measure(b))
    ensures IsMaxOver(docs, Leaves(t), measure, measure(Eval(t)))
  {
    match t
    case Leaf(pos, _) =>
      assert pos in Leaves(t) && measure(docs[pos]) == measure(Eval(t));
    case Node(left, right) =>
      TreeMax(docs, left, measure);
      TreeMax(docs, right, measure);
      MaxOverUnion(docs, Leaves(left), Leaves(right), measure, measure(Eval(left)), measure(Eval(right)));
  }

  lemma {:induction false} TreeUnion(docs: seq<Document>, t: Tree, part: Document -> set<string>)
    requires Faithful(docs, t)
    requires forall a, b :: part(Merge(a, b)) == part(a) + part(b)
    ensures IsUnionOver(docs, Leaves(t), part, part(Eval(t)))
  {
    match t
    case Leaf(pos, _) =>
      forall x
        ensures x in part(Eval(t)) <==> exists p :: p in Leaves(t) && p < |docs| && x in part(docs[p])
      {
        if x in part(Eval(t)) {
          assert pos in Leaves(t) && x in part(docs[pos]);
        }
      }
    case Node(left, right) =>
      TreeUnion(docs, left, part);
      TreeUnion(docs, right, part);
      forall x
        ensures x in part(Eval(t)) <==> exists p :: p in Leaves(t) && p < |docs| && x in part(docs[p])
      {
        assert part(Eval(t)) == part(Eval(left)) + part(Eval(right));
      }
  }

  function TitleLength(d: Document): nat { |d.title| }
  function SummaryLength(d: Document): nat { TextLength(d.summary) }
  function ContentLength(d: Document): nat { TextLength(d.contentText) }
  function HtmlLength(d: Document): nat { TextLength(d.contentHtml) }
  function Published(d: Document): nat { if d.publishedAt.Some? then 1 else 0 }
  function Ready(d: Document): nat { if d.metadataStatus == READY then 1 else 0 }
  function IndustryTags(d: Document): set<string> { TagSet(d.industryTags) }
  function MarketTags(d: Document): set<string> { TagSet(d.marketTags) }
  function Hashes(d: Document): set<string> { HashSet(d.attachments) }

  ghost predicate IsJoin(docs: seq<Document>, ps: set<nat>, m: Document) {
    && IsMaxOver(docs, ps, TitleLength, TitleLength(m))
    && IsMaxOver(docs, ps, SummaryLength, SummaryLength(m))
    && IsMaxOver(docs, ps, ContentLength, ContentLength(m))
    && IsMaxOver(docs, ps, HtmlLength, HtmlLength(m))
    && IsMaxOver(docs, ps, Published, Published(m))
    && IsMaxOver(docs, ps, Ready, Ready(m))
    && IsUnionOver(docs, ps, IndustryTags, IndustryTags(m))
    && IsUnionOver(docs, ps, MarketTags, MarketTags(m))
    && IsUnionOver(docs, ps, Hashes, Hashes(m))
  }

  lemma {:induction false} MergeMeasures(a: Document, b: Document)
    ensures TitleLength(Merge(a, b)) == Max(TitleLength(a), TitleLength(b))
    ensures SummaryLength(Merge(a, b)) == Max(SummaryLength(a), SummaryLength(b))
    ensures ContentLength(Merge(a, b)) == Max(ContentLength(a), ContentLength(b))
    ensures HtmlLength(Merge(a, b)) == Max(HtmlLength(a), HtmlLength(b))
    ensures Published(Merge(a, b)) == Max(Published(a), Published(b))
    ensures Ready(Merge(a, b)) == Max(Ready(a), Ready(b))
    ensures IndustryTags(Merge(a, b)) == IndustryTags(a) + IndustryTags(b)
    ensures MarketTags(Merge(a, b)) == MarketTags(a) + MarketTags(b)
    ensures Hashes(Merge(a, b)) == Hashes(a) + Hashes(b)
  {
    MergeIsJoin(a, b);
  }

  /** Lengths are maxima and tag and hash sets are unions over exactly the inputs folded in. */
  lemma {:induction false} HistoryIsJoin(docs: seq<Document>, t: Tree)
    requires Faithful(docs, t)
    ensures IsJoin(docs, Leaves(t), Eval(t))
  {
    forall a, b
      ensures TitleLength(Merge(a, b)) == Max(TitleLength(a), TitleLength(b))
      ensures SummaryLength(Merge(a, b)) == Max(SummaryLength(a), SummaryLength(b))
      ensures ContentLength(Merge(a, b)) == Max(ContentLength(a), ContentLength(b))
      ensures HtmlLength(Merge(a, b)) == Max(HtmlLength(a), HtmlLength(b))
      ensures Published(Merge(a, b)) == Max(Published(a), Published(b))
      ensures Ready(Merge(a, b)) == Max(Ready(a), Ready(b))
      ensures IndustryTags(Merge(a, b)) == IndustryTags(a) + IndustryTags(b)
      ensures MarketTags(Merge(a, b)) == MarketTags(a) + MarketTags(b)
      ensures Hashes(Merge(a, b)) == Hashes(a) + Hashes(b)
    {
      MergeMeasures(a, b);
    }
    TreeMax(docs, t, TitleLength);
    TreeMax(docs, t, SummaryLength);
    TreeMax(docs, t, ContentLength);
    TreeMax(docs, t, HtmlLength);
    TreeMax(docs, t, Published);
    TreeMax(docs, t, Ready);
    TreeUnion(docs, t, IndustryTags);
    TreeUnion(docs, t, MarketTags);
    TreeUnion(docs, t, Hashes);
  }

  lemma {:induction false} HistoryHasUniqueAttachments(docs: seq<Document>, t: Tree)
    requires Faithful(docs, t)
    requires forall p :: p in Leaves(t) && p < |docs| ==> UniqueAttachments(docs[p])
    ensures UniqueAttachments(Eval(t))
  {
    match t
    case Leaf(pos, _) =>
      assert pos in Leaves(t);
    case Node(left, right) =>
      MergeIsJoin(Eval(left), Eval(right));
  }

  lemma {:induction false} UnionIsUnique(docs: seq<Document>, ps: set<nat>, part: Document -> set<string>, v: set<string>, w: set<string>)
    requires IsUnionOver(docs, ps, part, v) && IsUnionOver(docs, ps, part, w)
    ensures v == w
  {
  }

  /** Two joins of the same inputs have the same score. */
  lemma {:induction false} JoinScore(docs: seq<Document>, ps: set<nat>, m: Document, n: Document)
    requires IsJoin(docs, ps, m) && IsJoin(docs, ps, n)
    requires UniqueAttachments(m) && UniqueAttachments(n)
    ensures Score(m) == Score(n)
  {
    UnionIsUnique(docs, ps, Hashes, Hashes(m), Hashes(n));
    UniqueHashCount(m.attachments);
    UniqueHashCount(n.attachments);
    assert TextLength(m.summary) == SummaryLength(m) == SummaryLength(n) == TextLength(n.summary);
    assert TextLength(m.contentText) == ContentLength(m) == ContentLength(n) == TextLength(n.contentText);
    assert TextLength(m.contentHtml) == HtmlLength(m) == HtmlLength(n) == TextLength(n.contentHtml);
    assert Published(m) == Published(n) && Ready(m) == Ready(n);
  }

  /** The quality of a survivor does not depend on the order its inputs were merged in. */
  lemma {:induction false} MergeOrderIsIrrelevant(docs: seq<Document>, t: Tree, u: Tree)
    requires Faithful(docs, t) && Faithful(docs, u) && Leaves(t) == Leaves(u)
    requires forall p :: p in Leaves(t) && p < |docs| ==> UniqueAttachments(docs[p])
    ensures Score(Eval(t)) == Score(Eval(u))
    ensures TagSet(Eval(t).industryTags) == TagSet(Eval(u).industryTags)
    ensures HashSet(Eval(t).attachments) == HashSet(Eval(u).attachments)
  {
    HistoryIsJoin(docs, t);
    HistoryIsJoin(docs, u);
    HistoryHasUniqueAttachments(docs, t);
    HistoryHasUniqueAttachments(docs, u);
    JoinScore(docs, Leaves(t), Eval(t), Eval(u));
    UnionIsUnique(docs, Leaves(t), IndustryTags, IndustryTags(Eval(t)), IndustryTags(Eval(u)));
    UnionIsUnique(docs, Leaves(t), Hashes, Hashes(Eval(t)), Hashes(Eval(u)));
  }

  lemma {:induction false} HistoryScore(docs: seq<Document>, t: Tree, p: nat)
    requires Faithful(docs, t) && p in Leaves(t) && p < |docs|
    requires forall q :: q in Leaves(t) && q < |docs| ==> UniqueAttachments(docs[q])
    ensures Score(Eval(t)) >= Score(docs[p])
  {
    match t
    case Leaf(_, _) =>
    case Node(left, right) =>
      HistoryHasUniqueAttachments(docs, left);
      HistoryHasUniqueAttachments(docs, right);
      MergeScore(Eval(left), Eval(right));
      if p in Leaves(left) {
        HistoryScore(docs, left, p);
      } else {
        HistoryScore(docs, right, p);
      }
  }

  lemma {:induction false} SurvivorIsLive(survivors: seq<Document>, trees: seq<Tree>, m: Document) returns (j: nat)
    requires multiset(survivors) == multiset(EvalAll(trees)) && m in survivors
    ensures j < |trees| && Eval(trees[j]) == m
  {
    hide Eval;
    assert m in multiset(survivors);
    var all := EvalAll(trees);
    assert m in all;
    j :| 0 <= j < |all| && all[j] == m;
  }

  lemma {:induction false} SlotOf(docs: seq<Document>, slots: seq<Option<Tree>>, t: Tree) returns (i: nat)
    requires Partition(docs, slots) && Some(t) in slots
    ensures i < |slots| && slots[i] == Some(t) && Faithful(docs, t)
  {
    hide Faithful, LeavesAt, Housed;
    i :| 0 <= i < |slots| && slots[i] == Some(t);
  }

  lemma {:induction false} SurvivorHasSlot(docs: seq<Document>, m: Document) returns (i: nat)
    requires m in Survivors(docs)
    ensures i < |Run(docs).slots| && Run(docs).slots[i].Some? && m == Eval(Run(docs).slots[i].value)
    ensures Faithful(docs, Run(docs).slots[i].value)
  {
    var slots := Run(docs).slots;
    var trees := Live(slots);
    hide *;
    Conservation(docs);
    LiveAndVacated(slots);
    var j := SurvivorIsLive(Survivors(docs), trees, m);
    assert trees[j] in trees;
    i := SlotOf(docs, slots, trees[j]);
  }

  /** The survivor m is exactly the join of the inputs ps and scores at least as high as each. */
  ghost predicate IsBestOf(docs: seq<Document>, ps: set<nat>, m: Document) {
    && IsJoin(docs, ps, m)
    && forall p :: p in ps ==> p < |docs| && Score(docs[p]) <= Score(m)
  }

  /** Every survivor is the join of a group of inputs, and scores at least as high as each. */
  lemma {:induction false} SurvivorsAreJoins(docs: seq<Document>, m: Document)
    requires forall d :: d in docs ==> UniqueAttachments(d)
    requires m in Survivors(docs)
    ensures exists i :: 0 <= i < |Run(docs).slots| && IsBestOf(docs, LeavesAt(Run(docs).slots[i]), m)
  {
    var i := SurvivorHasSlot(docs, m);
    var t := Run(docs).slots[i].value;
    HistoryIsJoin(docs, t);
    LeavesInRange(docs, t);
    forall p | p in Leaves(t)
      ensures Score(docs[p]) <= Score(m)
    {
      HistoryScore(docs, t, p);
    }
    assert IsBestOf(docs, LeavesAt(Run(docs).slots[i]), m);
  }
}
