/** What deduplication does, in the documents' own fields: when two texts are the same key, when two
    documents are the same policy, what a score rewards, and in which order the survivors come. */
module PolicyMeaning {
  import opened Wrappers
  import opened Sequences
  import opened PolicyDocuments
  import opened PolicyDedup
  import opened PolicyProvenance
  import opened PolicyLinkage
  import opened PolicyIdempotence

  // ---- key texts -----------------------------------------------------------------------------

  const LOW_WHITE := "\t\n\U{0B}\U{0C}\r\U{1C}\U{1D}\U{1E}\U{1F} \U{85}\U{A0}\U{1680}"
  const HIGH_WHITE := "\U{2000}\U{2001}\U{2002}\U{2003}\U{2004}\U{2005}\U{2006}\U{2007}\U{2008}\U{2009}\U{200A}\U{2028}\U{2029}\U{202F}\U{205F}\U{3000}"
  const UPPER := "ABCDEFGHIJKLMNOPQRSTUVWXYZ"
  const LOWER := "abcdefghijklmnopqrstuvwxyz"

  /** What is left of a text without its white space. */
  function Visible(text: string): string {
    if text == "" then "" else (if text[0] in LOW_WHITE || text[0] in HIGH_WHITE then [] else [text[0]]) + Visible(text[1..])
  }

  function Lowered(text: string): (r: string)
    ensures |r| == |text|
  {
    seq(|text|, i requires 0 <= i < |text| => LowerChar(text[i]))
  }

  lemma {:induction false} LowWhite(c: char)
    ensures c in LOW_WHITE <==> '\t' <= c <= '\r' || '\U{1C}' <= c <= ' ' || c == '\U{85}' || c == '\U{A0}' || c == '\U{1680}'
  {
    var w := LOW_WHITE;
    assert w[0] == '\t' && w[1] == '\n' && w[2] == '\U{0B}' && w[3] == '\U{0C}' && w[4] == '\r';
    assert w[5] == '\U{1C}' && w[6] == '\U{1D}' && w[7] == '\U{1E}' && w[8] == '\U{1F}' && w[9] == ' ';
    assert w[10] == '\U{85}' && w[11] == '\U{A0}' && w[12] == '\U{1680}';
  }

  lemma {:induction false} HighWhite(c: char)
    ensures c in HIGH_WHITE <==>
              '\U{2000}' <= c <= '\U{200A}' || c == '\U{2028}' || c == '\U{2029}' || c == '\U{202F}' || c == '\U{205F}' || c == '\U{3000}'
  {
    var w := HIGH_WHITE;
    assert w[0] == '\U{2000}' && w[1] == '\U{2001}' && w[2] == '\U{2002}' && w[3] == '\U{2003}' && w[4] == '\U{2004}';
    assert w[5] == '\U{2005}' && w[6] == '\U{2006}' && w[7] == '\U{2007}' && w[8] == '\U{2008}' && w[9] == '\U{2009}';
    assert w[10] == '\U{200A}' && w[11] == '\U{2028}' && w[12] == '\U{2029}' && w[13] == '\U{202F}';
    assert w[14] == '\U{205F}' && w[15] == '\U{3000}';
  }

  lemma {:induction false} WhiteIsSpace(c: char)
    ensures IsSpace(c) <==> c in LOW_WHITE || c in HIGH_WHITE
  {
    LowWhite(c);
    HighWhite(c);
  }

  /** The 26 letters fold, nothing else changes. */
  lemma {:induction false} LowerIsLetterByLetter()
    ensures forall i :: 0 <= i < 26 ==> LowerChar(UPPER[i]) == LOWER[i]
    ensures forall c :: c !in UPPER ==> LowerChar(c) == c
  {
    forall i | 0 <= i < 26
      ensures UPPER[i] == 'A' + i as char && LOWER[i] == 'a' + i as char
    {
    }
    forall c | 'A' <= c <= 'Z'
      ensures c in UPPER
    {
      assert UPPER[c as int - 'A' as int] == c;
    }
  }

  lemma {:induction false} SqueezeIsLowerVisible(text: string)
    ensures Squeeze(text) == Lowered(Visible(text))
  {
    if text != "" {
      SqueezeIsLowerVisible(text[1..]);
      WhiteIsSpace(text[0]);
    }
  }

  /** Two texts are the same key exactly when they agree without white space and in lower case;
      a text is none at all exactly when it is missing or all white. */
  lemma {:induction false} SameKeyTextIff(a: Option<string>, b: Option<string>)
    ensures NormalizeKeyText(a).None? <==> a.None? || Visible(a.value) == ""
    ensures NormalizeKeyText(a).Some? && NormalizeKeyText(b).Some? ==>
              (NormalizeKeyText(a) == NormalizeKeyText(b) <==> Lowered(Visible(a.value)) == Lowered(Visible(b.value)))
  {
    if a.Some? { SqueezeIsLowerVisible(a.value); }
    if b.Some? { SqueezeIsLowerVisible(b.value); }
  }

  // ---- the same policy -----------------------------------------------------------------------

  /** Both texts are there and agree without white space and in lower case. */
  predicate SameText(a: Option<string>, b: Option<string>) {
    && a.Some? && b.Some? && Visible(a.value) != "" && Visible(b.value) != ""
    && Lowered(Visible(a.value)) == Lowered(Visible(b.value))
  }

  /** By document number, by title, by the source's id, or by the source's URL. */
  predicate SamePolicy(a: Document, b: Document) {
    || SameText(a.documentNo, b.documentNo)
    || SameText(Some(a.title), Some(b.title))
    || (a.source == b.source && SameText(a.sourceDocumentId, b.sourceDocumentId))
    || (a.source == b.source && a.urlHash == b.urlHash)
  }

  lemma {:induction false} SameTextIff(a: Option<string>, b: Option<string>)
    ensures SameText(a, b) <==> NormalizeKeyText(a).Some? && NormalizeKeyText(a) == NormalizeKeyText(b)
  {
    SameKeyTextIff(a, b);
    SameKeyTextIff(b, a);
  }

  lemma {:induction false} SharesIff(a: Document, b: Document)
    ensures Shares(a, b) <==> SamePolicy(a, b)
  {
    SameTextIff(a.documentNo, b.documentNo);
    SameTextIff(Some(a.title), Some(b.title));
    SameTextIff(a.sourceDocumentId, b.sourceDocumentId);
    hide NormalizeKeyText, SameText;
    if SameText(a.documentNo, b.documentNo) {
      assert DocumentNoKey(NormalizeKeyText(a.documentNo).value) in KeySet(a);
    }
    if SameText(Some(a.title), Some(b.title)) {
      assert TitleKey(NormalizeKeyText(Some(a.title)).value) in KeySet(a);
    }
    if a.source == b.source && SameText(a.sourceDocumentId, b.sourceDocumentId) {
      assert SourceIdKey(a.source, NormalizeKeyText(a.sourceDocumentId).value) in KeySet(a);
    }
    if a.source == b.source && a.urlHash == b.urlHash {
      assert UrlKey(a.source, a.urlHash) in KeySet(a);
    }
  }

  ghost predicate NoSamePolicy(docs: seq<Document>) {
    forall i, j :: 0 <= i < j < |docs| ==> !SamePolicy(docs[i], docs[j])
  }

  lemma {:induction false} KeyDisjointIff(docs: seq<Document>)
    ensures KeyDisjoint(docs) <==> NoSamePolicy(docs)
  {
    hide KeySet, SamePolicy;
    forall i, j | 0 <= i < j < |docs|
      ensures KeySet(docs[i]) !! KeySet(docs[j]) <==> !SamePolicy(docs[i], docs[j])
    {
      SharesIff(docs[i], docs[j]);
    }
  }

  /** Nothing is folded exactly when no two documents are the same policy. */
  lemma {:induction false} FoldsNothingIff(docs: seq<Document>)
    ensures Run(docs).dedupedCount == 0 <==> NoSamePolicy(docs)
  {
    FoldsNothing(docs);
    KeyDisjointIff(docs);
  }

  /** Two documents are folded into one, the merge of the earlier with the later, exactly when they
      are the same policy. */
  lemma {:induction false} FoldsPairIff(a: Document, b: Document)
    ensures Run([a] + [b]).dedupedCount == 1 <==> SamePolicy(a, b)
    ensures |Survivors([a] + [b])| == (if SamePolicy(a, b) then 1 else 2)
    ensures SamePolicy(a, b) ==> Survivors([a] + [b]) == [Merge(a, b)]
  {
    var docs := [a] + [b];
    FoldsNothingIff(docs);
    assert NoSamePolicy(docs) <==> !SamePolicy(a, b) by {
      hide SamePolicy;
      assert docs[0] == a && docs[1] == b;
    }
    hide SamePolicy, Run, Survivors;
    PairFoldsOnce(a, b);
    SharesIff(a, b);
  }

  lemma {:induction false} PairFoldsOnce(a: Document, b: Document)
    ensures Run([a] + [b]).dedupedCount <= 1
    ensures |Survivors([a] + [b])| == (if Shares(a, b) then 1 else 2)
    ensures Shares(a, b) ==> Survivors([a] + [b]) == [Merge(a, b)]
  {
    var docs := [a] + [b];
    FirstOpens(a);
    Conservation(docs);
    assert docs[..1] == [a] && docs[..1][..0] == [];
    assert Run(docs) == Step(Run([a]), 1, b);
    hide KeySet;
    SortedIndexesFacts(Matched(Run([a]), b));
    if Shares(a, b) {
      var k :| k in KeySet(a) && k in KeySet(b);
      assert Run([a]).index[k] in Matched(Run([a]), b);
      OneSlotMatched(Run([a]), b);
      OnlyOneSurvives(docs, Node(Leaf(0, a), Leaf(1, b)));
    } else {
      assert Matched(Run([a]), b) == {};
      assert Run(docs).slots == Run([a]).slots + [Some(Leaf(1, b))];
      assert Vacated(Run(docs).slots) == 0 by { NoneVacatedOfTwo(Run(docs).slots); }
    }
  }

  lemma {:induction false} FirstOpens(a: Document)
    ensures Run([a]).slots == [Some(Leaf(0, a))] && Run([a]).dedupedCount == 0
    ensures forall k :: k in Run([a]).index <==> k in KeySet(a)
    ensures forall k :: k in KeySet(a) ==> Run([a]).index[k] == 0
  {
    assert [a][..0] == [];
    assert Matched(Run([]), a) == {};
  }

  lemma {:induction false} OneSlotMatched(s: State, d: Document)
    requires InRange(s) && |s.slots| == 1 && s.slots[0].Some? && Matched(s, d) != {}
    ensures Step(s, 1, d).slots == [Some(Node(s.slots[0].value, Leaf(1, d)))] && Vacated(Step(s, 1, d).slots) == 0
  {
    SortedIndexesFacts(Matched(s, d));
    MatchedIsFoldable(s, d);
    var matched := SortedIndexes(Matched(s, d));
    assert forall i :: i in Matched(s, d) ==> i == 0;
    forall i | 0 <= i < |matched|
      ensures matched[i] == 0
    {
      assert matched[i] in matched;
    }
    assert |matched| == 1;
    var t := Step(s, 1, d).slots;
    assert t[..0] == [];
  }

  lemma {:induction false} OnlyOneSurvives(docs: seq<Document>, t: Tree)
    requires Run(docs).slots == [Some(t)]
    ensures Survivors(docs) == [Eval(t)]
  {
    hide Run, Eval;
    var slots := [Some(t)];
    assert slots[..0] == [] && Live([]) == [];
    assert Live(slots) == [t] && EvalAll([t]) == [Eval(t)];
    SortOfDescending([Eval(t)], SortKey);
  }

  lemma {:induction false} NoneVacatedOfTwo(slots: seq<Option<Tree>>)
    requires |slots| == 2 && slots[0].Some? && slots[1].Some?
    ensures Vacated(slots) == 0
  {
    var one := slots[..1];
    assert slots[|slots| - 1] == slots[1] && one[..0] == [] && one[|one| - 1] == slots[0];
    assert Vacated(one) == 0;
  }

  // ---- the order of merging ------------------------------------------------------------------

  /** Merged from the left, one after the other. */
  function MergeAll(docs: seq<Document>): Document
    requires docs != []
  {
    if |docs| == 1 then docs[0] else Merge(MergeAll(docs[..|docs| - 1]), docs[|docs| - 1])
  }

  /** The documents in these slots; a vacated slot has none. */
  function Occupants(slots: seq<Option<Tree>>, at: seq<nat>): seq<Document>
    requires forall i :: 0 <= i < |at| ==> at[i] < |slots|
  {
    if at == [] then []
    else
      var last := slots[at[|at| - 1]];
      Occupants(slots, at[..|at| - 1]) + if last.Some? then [Eval(last.value)] else []
  }

  lemma {:induction false} MergeOneMore(docs: seq<Document>, d: Document)
    requires docs != []
    ensures MergeAll(docs + [d]) == Merge(MergeAll(docs), d)
  {
    assert (docs + [d])[..|docs + [d]| - 1] == docs;
  }

  lemma {:induction false} FoldMergesInOrder(slots: seq<Option<Tree>>, target: nat, extras: seq<nat>, docs: seq<Document>)
    requires Foldable(slots, target, extras) && Ascending(extras) && docs != []
    requires Eval(slots[target].value) == MergeAll(docs)
    ensures Eval(FoldExtras(slots, target, extras)[target].value) == MergeAll(docs + Occupants(slots, extras))
    decreases |extras|
  {
    hide MergeAll, Merge;
    if extras == [] {
      assert docs + Occupants(slots, extras) == docs;
    } else {
      var init, e := extras[..|extras| - 1], extras[|extras| - 1];
      FoldMergesInOrder(slots, target, init, docs);
      FoldEmpties(slots, target, init);
      assert e !in init;
      if slots[e].Some? {
        MergeOneMore(docs + Occupants(slots, init), Eval(slots[e].value));
        assert docs + Occupants(slots, extras) == docs + Occupants(slots, init) + [Eval(slots[e].value)];
      } else {
        assert docs + Occupants(slots, extras) == docs + Occupants(slots, init);
      }
    }
  }

  /** An arrival that matches is merged into the document of the lowest matched slot, or stands
      alone if that is vacated; then the documents of the other matched slots, in order. */
  lemma {:induction false} ArrivalMergesInOrder(s: State, pos: nat, d: Document) returns (at: seq<nat>)
    requires InRange(s) && Matched(s, d) != {}
    ensures at != [] && Ascending(at) && forall i :: i in at <==> i in Matched(s, d)
    ensures forall i :: 0 <= i < |at| ==> at[i] < |s.slots|
    ensures var r := Step(s, pos, d).slots;
      && at[0] < |r| && r[at[0]].Some?
      && Eval(r[at[0]].value) == MergeAll(Occupants(s.slots, at[..1]) + [d] + Occupants(s.slots, at[1..]))
  {
    hide Step, Matched, MergeAll, Eval, Occupant, Occupants, Reindex, SortedIndexes, FoldExtras, KeySet, Least, InRange;
    var target, rest := LowestAndRest(s, d);
    at := [target] + rest;
    SortedIndexesFacts(Matched(s, d));
    StepParts(s, pos, d, target, rest);
    var placed := s.slots[target := Some(Occupant(s.slots[target], pos, d))];
    assert at[..1] == [target] && at[1..] == rest;
    OccupantIsMerged(s.slots, target, pos, d);
    FoldMergesInOrder(placed, target, rest, Occupants(s.slots, [target]) + [d]);
    SameOccupants(s.slots, placed, rest);
  }

  lemma {:induction false} OccupantIsMerged(slots: seq<Option<Tree>>, target: nat, pos: nat, d: Document)
    requires target < |slots|
    ensures Eval(Occupant(slots[target], pos, d)) == MergeAll(Occupants(slots, [target]) + [d])
  {
    hide Merge;
    assert [target][..0] == [] && Occupants(slots, []) == [];
    if slots[target].Some? {
      var held := Eval(slots[target].value);
      assert Occupants(slots, [target]) == [held];
      MergeOneMore([held], d);
    }
  }

  lemma {:induction false} SameOccupants(slots: seq<Option<Tree>>, slots': seq<Option<Tree>>, at: seq<nat>)
    requires |slots| == |slots'| && forall i :: 0 <= i < |at| ==> at[i] < |slots| && slots'[at[i]] == slots[at[i]]
    ensures Occupants(slots', at) == Occupants(slots, at)
    decreases |at|
  {
    if at != [] {
      SameOccupants(slots, slots', at[..|at| - 1]);
    }
  }

  /** No two survivors are the same policy, when no input can mint a key for another. */
  lemma {:induction false} SurvivorsAreDistinct(docs: seq<Document>)
    requires NoMinting(docs)
    ensures NoSamePolicy(Survivors(docs))
  {
    SurvivorsAreKeyDisjoint(docs);
    KeyDisjointIff(Survivors(docs));
  }

  /** Inputs of one slot are joined by a path of inputs in which neighbours are the same policy. */
  lemma {:induction false} SlotIsConnected(docs: seq<Document>, i: nat, p: nat, q: nat) returns (path: seq<nat>)
    requires MintsUnheld(docs) && i < |Run(docs).slots|
    requires p in LeavesAt(Run(docs).slots[i]) && q in LeavesAt(Run(docs).slots[i])
    ensures path != [] && path[0] == p && path[|path| - 1] == q && forall m :: 0 <= m < |path| ==> path[m] < |docs|
    ensures forall m :: 0 < m < |path| ==> SamePolicy(docs[path[m - 1]], docs[path[m]])
  {
    hide Run, LeavesAt, MintsUnheld, SamePolicy, Shares;
    DedupIsSound(docs);
    assert Linked(docs, p, q);
    path :| Chain(docs, path) && path[0] == p && path[|path| - 1] == q;
    forall m | 0 < m < |path|
      ensures SamePolicy(docs[path[m - 1]], docs[path[m]])
    {
      SharesIff(docs[path[m - 1]], docs[path[m]]);
    }
  }

  // ---- the score --------------------------------------------------------------------------------

  /** A document with nothing scores nothing. Then: one point per character of text up to 400, one
      for two of the markup up to 200, one for three of the summary up to 120; 20 for each
      attachment, 10 for a publication date and 10 for complete metadata. */
  lemma {:induction false} ScoreRewards(d: Document, text: string, attachments: seq<Attachment>, a: Attachment, at: nat, status: string)
    requires status != "ready"
    ensures Score(d.(contentText := None, contentHtml := None, summary := None, attachments := [], publishedAt := None,
                     metadataStatus := status)) == 0
    ensures Score(d.(contentText := Some(text))) - Score(d.(contentText := None)) == (if |text| < 400 then |text| else 400)
    ensures var gain := Score(d.(contentHtml := Some(text))) - Score(d.(contentHtml := None));
            2 * gain <= (if |text| < 200 then |text| else 200) <= 2 * gain + 1
    ensures var gain := Score(d.(summary := Some(text))) - Score(d.(summary := None));
            3 * gain <= (if |text| < 120 then |text| else 120) <= 3 * gain + 2
    ensures Score(d.(attachments := attachments + [a])) == Score(d.(attachments := attachments)) + 20
    ensures Score(d.(publishedAt := Some(at))) == Score(d.(publishedAt := None)) + 10
    ensures Score(d.(metadataStatus := "ready")) == Score(d.(metadataStatus := status)) + 10
  {
  }

  // ---- the order of the result ---------------------------------------------------------------------

  /** Survivors come with the latest publication first, the better score first on a tie; one
      without a date counts as published at the earliest instant. */
  lemma {:induction false} NewestFirst(docs: seq<Document>, i: nat, j: nat)
    requires i < j < |Survivors(docs)|
    ensures var a, b := Survivors(docs)[i], Survivors(docs)[j];
            && (b.publishedAt.Some? && b.publishedAt.value > 0 ==> a.publishedAt.Some? && a.publishedAt.value >= b.publishedAt.value)
            && (a.publishedAt == b.publishedAt ==> Score(a) >= Score(b))
  {
    var a, b := Survivors(docs)[i], Survivors(docs)[j];
    SortIsDescendingPermutation(EvalAll(Live(Run(docs).slots)), SortKey);
    hide Survivors, Score;
    assert !LexLess(SortKey(a), SortKey(b));
    assert SortKey(a)[1..] == [Score(a)] && SortKey(b)[1..] == [Score(b)];
    assert SortKey(a)[1..][1..] == [] && SortKey(b)[1..][1..] == [];
  }
}
