/** Normalised policy documents, their dedup keys and quality score, and the merge of two
    versions of one policy (policy_normalization_service.py, policy_dedup_service.py). */
module PolicyDocuments {
  import opened Wrappers
  import opened Sequences

  datatype Attachment = Attachment(url: string, name: Option<string>, kind: Option<string>, hash: string)

  /** Datetimes count from the earliest representable instant, so 0 is `datetime.min`. */
  datatype Document = Document(
    source: string,
    sourceDocumentId: Option<string>,
    urlHash: string,
    title: string,
    summary: Option<string>,
    documentNo: Option<string>,
    issuingAuthority: Option<string>,
    policyLevel: Option<string>,
    category: Option<string>,
    macroTopic: string,
    industryTags: seq<string>,
    marketTags: seq<string>,
    publishedAt: Option<nat>,
    effectiveAt: Option<nat>,
    expiredAt: Option<nat>,
    url: string,
    contentText: Option<string>,
    contentHtml: Option<string>,
    rawPayload: map<string, string>,
    metadataStatus: string,
    projectionStatus: string,
    attachments: seq<Attachment>)

  datatype Key =
    | DocumentNoKey(text: string)
    | TitleKey(text: string)
    | SourceIdKey(source: string, text: string)
    | UrlKey(source: string, urlHash: string)

  const READY := "ready"
  const OTHER_TOPIC := "other"

  // ---- text helpers -------------------------------------------------------------------

  /** The white space of Python's regular expressions on text. */
  predicate IsSpace(c: char) {
    '\t' <= c <= '\r' || '\U{1C}' <= c <= ' ' || c == '\U{85}' || c == '\U{A0}' || c == '\U{1680}'
    || '\U{2000}' <= c <= '\U{200A}' || c == '\U{2028}' || c == '\U{2029}' || c == '\U{202F}' || c == '\U{205F}' || c == '\U{3000}'
  }

  function LowerChar(c: char): char {
    if 'A' <= c <= 'Z' then c - 'A' + 'a' else c
  }

  function Squeeze(text: string): string {
    if text == "" then ""
    else if IsSpace(text[0]) then Squeeze(text[1..])
    else [LowerChar(text[0])] + Squeeze(text[1..])
  }

  /** The comparable form of a text: no white space, lower case, None when nothing is left. */
  function NormalizeKeyText(value: Option<string>): Option<string> {
    if value.None? then None
    else
      var text := Squeeze(value.value);
      if text == "" then None else Some(text)
  }

  /** Python truth of an optional text. */
  predicate Truthy(value: Option<string>) {
    value.Some? && value.value != ""
  }

  /** Python's `primary or secondary` on optional texts. */
  function Or(primary: Option<string>, secondary: Option<string>): Option<string> {
    if Truthy(primary) then primary else secondary
  }

  function OrDate(primary: Option<nat>, secondary: Option<nat>): Option<nat> {
    if primary.Some? then primary else secondary
  }

  function TextLength(value: Option<string>): nat {
    |value.GetOr("")|
  }

  function Min(a: int, b: int): int {
    if a <= b then a else b
  }

  function Max(a: int, b: int): int {
    if a <= b then b else a
  }

  // ---- keys -----------------------------------------------------------------------------

  /** Two documents denote the same policy when these sets meet. */
  function KeySet(d: Document): set<Key> {
    var documentNo := NormalizeKeyText(d.documentNo);
    var title := NormalizeKeyText(Some(d.title));
    var sourceDocumentId := NormalizeKeyText(d.sourceDocumentId);
    (if documentNo.Some? then {DocumentNoKey(documentNo.value)} else {})
    + (if title.Some? then {TitleKey(title.value)} else {})
    + (if sourceDocumentId.Some? then {SourceIdKey(d.source, sourceDocumentId.value)} else {})
    + {UrlKey(d.source, d.urlHash)}
  }

  method BuildDedupKeys(d: Document) returns (keys: seq<Key>)
    ensures forall k :: k in keys <==> k in KeySet(d)
    ensures forall text :: DocumentNoKey(text) in keys <==> NormalizeKeyText(d.documentNo) == Some(text)
    ensures forall text :: TitleKey(text) in keys <==> NormalizeKeyText(Some(d.title)) == Some(text)
    ensures forall source, text :: SourceIdKey(source, text) in keys <==>
              source == d.source && NormalizeKeyText(d.sourceDocumentId) == Some(text)
    ensures forall source, hash :: UrlKey(source, hash) in keys <==> source == d.source && hash == d.urlHash
  {
    hide NormalizeKeyText;
    keys := [];
    var documentNo := NormalizeKeyText(d.documentNo);
    var title := NormalizeKeyText(Some(d.title));
    var sourceDocumentId := NormalizeKeyText(d.sourceDocumentId);
    if documentNo.Some? {
      keys := keys + [DocumentNoKey(documentNo.value)];
    }
    if title.Some? {
      keys := keys + [TitleKey(title.value)];
    }
    if sourceDocumentId.Some? {
      keys := keys + [SourceIdKey(d.source, sourceDocumentId.value)];
    }
    keys := keys + [UrlKey(d.source, d.urlHash)];
  }

  // ---- quality ----------------------------------------------------------------------------

  /** `_document_quality_score`. */
  function Score(d: Document): nat {
    Min(TextLength(d.contentText), 400)
    + Min(TextLength(d.contentHtml), 200) / 2
    + Min(TextLength(d.summary), 120) / 3
    + |d.attachments| * 20
    + (if d.publishedAt.Some? then 10 else 0)
    + (if d.metadataStatus == READY then 10 else 0)
  }

  // ---- merging lists ------------------------------------------------------------------------

  function TagKey(tag: string): string {
    tag
  }

  function AttachmentHash(a: Attachment): string {
    a.hash
  }

  function MergedTags(primary: seq<string>, secondary: seq<string>): seq<string> {
    DistinctBy(primary + secondary, TagKey)
  }

  function MergedAttachments(primary: seq<Attachment>, secondary: seq<Attachment>): seq<Attachment> {
    DistinctBy(primary + secondary, AttachmentHash)
  }

  /** Exactly the first mention of every tag is kept, in order. */
  ghost predicate FirstMentions(kept: seq<string>, tags: seq<string>) {
    exists at: seq<nat> {:trigger |at|} ::
      && |at| == |kept| && (forall i, j :: 0 <= i < j < |at| ==> at[i] < at[j])
      && (forall i :: 0 <= i < |at| ==> at[i] < |tags| && kept[i] == tags[at[i]])
      && (forall j: nat :: j < |tags| ==> (j in at <==> tags[j] !in tags[..j]))
  }

  /** Exactly the first attachment of every hash is kept, in order. */
  ghost predicate FirstOfHash(kept: seq<Attachment>, attachments: seq<Attachment>) {
    exists at: seq<nat> {:trigger |at|} ::
      && |at| == |kept| && (forall i, j :: 0 <= i < j < |at| ==> at[i] < at[j])
      && (forall i :: 0 <= i < |at| ==> at[i] < |attachments| && kept[i] == attachments[at[i]])
      && (forall j: nat :: j < |attachments| ==>
            (j in at <==> forall i :: 0 <= i < j ==> attachments[i].hash != attachments[j].hash))
  }

  lemma {:induction false} MergedTagsAreFirst(tags: seq<string>)
    ensures FirstMentions(DistinctBy(tags, TagKey), tags)
  {
    var at := FirstOccurrences(tags, TagKey);
    hide DistinctBy;
    forall j: nat | j < |tags|
      ensures j in at <==> tags[j] !in tags[..j]
    {
      assert IsFirst(tags, TagKey, j) <==> tags[j] !in tags[..j];
    }
    assert |at| == |DistinctBy(tags, TagKey)|;
  }

  lemma {:induction false} MergedAttachmentsAreFirst(attachments: seq<Attachment>)
    ensures FirstOfHash(DistinctBy(attachments, AttachmentHash), attachments)
  {
    var at := FirstOccurrences(attachments, AttachmentHash);
    hide DistinctBy;
    forall j: nat | j < |attachments|
      ensures j in at <==> forall i :: 0 <= i < j ==> attachments[i].hash != attachments[j].hash
    {
      assert IsFirst(attachments, AttachmentHash, j) <==> forall i :: 0 <= i < j ==> attachments[i].hash != attachments[j].hash;
    }
    assert |at| == |DistinctBy(attachments, AttachmentHash)|;
  }

  method MergeUniqueTags(primary: seq<string>, secondary: seq<string>) returns (merged: seq<string>)
    ensures merged == MergedTags(primary, secondary)
    ensures FirstMentions(merged, primary + secondary)
  {
    var items := primary + secondary;
    merged := [];
    for i := 0 to |items|
      invariant merged == DistinctBy(items[..i], TagKey)
    {
      assert items[..i + 1][..i] == items[..i];
      assert items[i] in merged <==> HasKey(merged, TagKey, items[i]);
      if items[i] !in merged {
        merged := merged + [items[i]];
      }
    }
    assert items[..|items|] == items;
    MergedTagsAreFirst(items);
  }

  method MergeAttachments(primary: seq<Attachment>, secondary: seq<Attachment>)
    returns (merged: seq<Attachment>)
    ensures merged == MergedAttachments(primary, secondary)
    ensures FirstOfHash(merged, primary + secondary)
  {
    var items := primary + secondary;
    var seenHashes := {};
    merged := [];
    for i := 0 to |items|
      invariant merged == DistinctBy(items[..i], AttachmentHash)
      invariant forall h :: h in seenHashes <==> HasKey(merged, AttachmentHash, h)
    {
      assert items[..i + 1][..i] == items[..i];
      ghost var before := merged;
      if items[i].hash !in seenHashes {
        seenHashes := seenHashes + {items[i].hash};
        merged := merged + [items[i]];
        assert merged[|before|] == items[i];
        assert forall j :: 0 <= j < |before| ==> merged[j] == before[j];
      }
    }
    assert items[..|items|] == items;
    MergedAttachmentsAreFirst(items);
  }

  /** The URLs that are not blank. */
  function Present(urls: seq<Option<string>>): seq<string> {
    if urls == [] then []
    else
      var last := urls[|urls| - 1];
      Present(urls[..|urls| - 1]) + if last.Some? then [last.value] else []
  }

  function Described(urls: seq<string>, describe: string -> Attachment): (r: seq<Attachment>)
    ensures |r| == |urls| && forall i :: 0 <= i < |r| ==> r[i] == describe(urls[i])
  {
    seq(|urls|, i requires 0 <= i < |urls| => describe(urls[i]))
  }

  /** An attachment list is built once per normalised URL, in the order of their first mention;
      the hash of a URL is taken to be injective, so no hash repeats. `None` stands for a blank
      URL. */
  method NormalizeAttachments(urls: seq<Option<string>>, describe: string -> Attachment)
    returns (attachments: seq<Attachment>)
    requires forall u, v :: describe(u).hash == describe(v).hash ==> u == v
    ensures attachments == Described(DistinctBy(Present(urls), TagKey), describe)
    ensures UniqueKeys(attachments, AttachmentHash)
  {
    hide DistinctBy, Present, Described, UniqueKeys;
    attachments := [];
    var seenUrls: set<string> := {};
    ghost var distinct: seq<string> := [];
    NothingDescribed(describe);
    for i := 0 to |urls|
      invariant distinct == DistinctBy(Present(urls[..i]), TagKey)
      invariant forall u :: u in seenUrls <==> u in distinct
      invariant attachments == Described(distinct, describe)
    {
      PresentNext(urls, i);
      if urls[i].None? {
        continue;
      }
      DistinctNextUrl(Present(urls[..i]), urls[i].value);
      if urls[i].value in seenUrls {
        continue;
      }
      DescribedNext(distinct, urls[i].value, describe);
      seenUrls := seenUrls + {urls[i].value};
      attachments := attachments + [describe(urls[i].value)];
      distinct := distinct + [urls[i].value];
    }
    assert urls[..|urls|] == urls;
    DescribedAreUnique(Present(urls), describe);
  }

  lemma {:induction false} NothingDescribed(describe: string -> Attachment)
    ensures Present([]) == [] && DistinctBy<string, string>([], TagKey) == [] && Described([], describe) == []
  {
  }

  lemma {:induction false} PresentNext(urls: seq<Option<string>>, i: nat)
    requires i < |urls|
    ensures Present(urls[..i + 1]) == Present(urls[..i]) + if urls[i].Some? then [urls[i].value] else []
    ensures urls[i].None? ==> Present(urls[..i + 1]) == Present(urls[..i])
  {
    assert urls[..i + 1][..i] == urls[..i];
  }

  lemma {:induction false} DescribedNext(urls: seq<string>, url: string, describe: string -> Attachment)
    ensures Described(urls + [url], describe) == Described(urls, describe) + [describe(url)]
  {
  }

  lemma {:induction false} DescribedAreUnique(urls: seq<string>, describe: string -> Attachment)
    requires forall u, v :: describe(u).hash == describe(v).hash ==> u == v
    ensures UniqueKeys(Described(DistinctBy(urls, TagKey), describe), AttachmentHash)
  {
    hide DistinctBy;
    var distinct := DistinctBy(urls, TagKey);
    DistinctByKeys(urls, TagKey);
    forall i, j | 0 <= i < j < |distinct|
      ensures describe(distinct[i]).hash != describe(distinct[j]).hash
    {
      assert TagKey(distinct[i]) != TagKey(distinct[j]);
    }
  }

  lemma {:induction false} DistinctNextUrl(urls: seq<string>, url: string)
    ensures DistinctBy(urls + [url], TagKey)
            == if url in DistinctBy(urls, TagKey) then DistinctBy(urls, TagKey) else DistinctBy(urls, TagKey) + [url]
  {
    assert (urls + [url])[..|urls|] == urls;
    var kept := DistinctBy(urls, TagKey);
    assert HasKey(kept, TagKey, url) <==> url in kept;
  }

  // ---- merging two documents ------------------------------------------------------------------

  /** `max(candidates, key=len)`: the first of the longest non-empty texts. */
  function PickRicherText(primary: Option<string>, secondary: Option<string>): Option<string> {
    if !Truthy(primary) then (if Truthy(secondary) then secondary else None)
    else if Truthy(secondary) && |secondary.value| > |primary.value| then secondary
    else primary
  }

  /** Whether the right document wins: better score, then later publication. */
  predicate RightIsPrimary(left: Document, right: Document) {
    Score(right) > Score(left)
    || (Score(right) == Score(left) && right.publishedAt.GetOr(0) > left.publishedAt.GetOr(0))
  }

  function MergeInto(primary: Document, secondary: Document): Document {
    Document(
      source := primary.source,
      sourceDocumentId := Or(primary.sourceDocumentId, secondary.sourceDocumentId),
      urlHash := primary.urlHash,
      title := if |primary.title| >= |secondary.title| then primary.title else secondary.title,
      summary := PickRicherText(primary.summary, secondary.summary),
      documentNo := Or(primary.documentNo, secondary.documentNo),
      issuingAuthority := Or(primary.issuingAuthority, secondary.issuingAuthority),
      policyLevel := Or(primary.policyLevel, secondary.policyLevel),
      category := Or(primary.category, secondary.category),
      macroTopic := if primary.macroTopic != OTHER_TOPIC then primary.macroTopic else secondary.macroTopic,
      industryTags := MergedTags(primary.industryTags, secondary.industryTags),
      marketTags := MergedTags(primary.marketTags, secondary.marketTags),
      publishedAt := OrDate(primary.publishedAt, secondary.publishedAt),
      effectiveAt := OrDate(primary.effectiveAt, secondary.effectiveAt),
      expiredAt := OrDate(primary.expiredAt, secondary.expiredAt),
      url := if primary.url != "" then primary.url else secondary.url,
      contentText := PickRicherText(primary.contentText, secondary.contentText),
      contentHtml := PickRicherText(primary.contentHtml, secondary.contentHtml),
      rawPayload := secondary.rawPayload + primary.rawPayload,
      metadataStatus := if primary.metadataStatus == READY then READY else secondary.metadataStatus,
      projectionStatus := primary.projectionStatus,
      attachments := MergedAttachments(primary.attachments, secondary.attachments))
  }

  function Merge(left: Document, right: Document): Document {
    if RightIsPrimary(left, right) then MergeInto(right, left) else MergeInto(left, right)
  }

  // ---- what a merge does to keys ---------------------------------------------------------------

  /** `winner` has no id of its own, `other` has one, and they come from different sources: a
      merge in which `winner` is primary pairs the source of one with the id of the other. */
  predicate CanMint(winner: Document, other: Document) {
    && !Truthy(winner.sourceDocumentId)
    && NormalizeKeyText(other.sourceDocumentId).Some?
    && winner.source != other.source
  }

  /** Merging the two pairs the winner's source with the other side's id. */
  predicate MergeMints(left: Document, right: Document) {
    if RightIsPrimary(left, right) then CanMint(right, left) else CanMint(left, right)
  }

  /** The key of one document's source and another document's id. */
  function MintedKey(winner: Document, other: Document): Key {
    SourceIdKey(winner.source, NormalizeKeyText(other.sourceDocumentId).GetOr(""))
  }

  lemma {:induction false} UntruthyHasNoKey(value: Option<string>)
    requires !Truthy(value)
    ensures NormalizeKeyText(value) == None
  {
  }

  lemma {:induction false} MergeIntoKeys(primary: Document, secondary: Document)
    ensures KeySet(MergeInto(primary, secondary)) <= KeySet(primary) + KeySet(secondary)
       <==> !CanMint(primary, secondary)
  {
    var m := MergeInto(primary, secondary);
    var idKey := NormalizeKeyText(m.sourceDocumentId);
    if !Truthy(primary.sourceDocumentId) {
      UntruthyHasNoKey(primary.sourceDocumentId);
    }
    if !Truthy(primary.documentNo) {
      UntruthyHasNoKey(primary.documentNo);
    }
    if CanMint(primary, secondary) {
      var minted := SourceIdKey(primary.source, idKey.value);
      assert minted in KeySet(m);
      assert minted !in KeySet(primary) + KeySet(secondary);
    }
  }

  /** The one key a merge can add. */
  lemma {:induction false} AddedKey(primary: Document, secondary: Document, k: Key)
    requires k in KeySet(MergeInto(primary, secondary)) && k !in KeySet(primary) + KeySet(secondary)
    ensures CanMint(primary, secondary) && k == MintedKey(primary, secondary)
  {
    if !Truthy(primary.sourceDocumentId) {
      UntruthyHasNoKey(primary.sourceDocumentId);
    }
    if !Truthy(primary.documentNo) {
      UntruthyHasNoKey(primary.documentNo);
    }
  }

  /** A minted key is in the merged document and in neither side. */
  lemma {:induction false} MintedIsNew(primary: Document, secondary: Document)
    requires CanMint(primary, secondary)
    ensures MintedKey(primary, secondary) in KeySet(MergeInto(primary, secondary))
    ensures MintedKey(primary, secondary) !in KeySet(primary) + KeySet(secondary)
  {
    hide RightIsPrimary, MergedTags, MergedAttachments, PickRicherText;
    var m, id := MergeInto(primary, secondary), NormalizeKeyText(secondary.sourceDocumentId);
    assert m.source == primary.source && m.sourceDocumentId == secondary.sourceDocumentId;
    UntruthyHasNoKey(primary.sourceDocumentId);
    hide NormalizeKeyText, MergeInto;
  }

  /** A merged document has only keys of its two sides, unless the primary side has no id and
      takes over the id of a document from another source; then, and only then, it carries a
      key neither side had. */
  lemma {:induction false} MergeKeys(left: Document, right: Document)
    ensures KeySet(Merge(left, right)) <= KeySet(left) + KeySet(right)
       <==> !MergeMints(left, right)
  {
    if RightIsPrimary(left, right) {
      MergeIntoKeys(right, left);
    } else {
      MergeIntoKeys(left, right);
    }
  }

  // ---- a merge is a join of contents --------------------------------------------------------------

  ghost predicate UniqueAttachments(d: Document) {
    UniqueKeys(d.attachments, AttachmentHash)
  }

  function TagSet(tags: seq<string>): set<string> {
    set tag | tag in tags
  }

  function HashSet(attachments: seq<Attachment>): set<string> {
    set a | a in attachments :: a.hash
  }

  lemma {:induction false} MergedTagsSet(primary: seq<string>, secondary: seq<string>)
    ensures TagSet(MergedTags(primary, secondary)) == TagSet(primary) + TagSet(secondary)
    ensures UniqueKeys(MergedTags(primary, secondary), TagKey)
  {
    var items := primary + secondary;
    DistinctByKeys(items, TagKey);
    forall tag
      ensures tag in MergedTags(primary, secondary) <==> tag in primary || tag in secondary
    {
      assert HasKey(items, TagKey, tag) <==> tag in items;
      assert HasKey(MergedTags(primary, secondary), TagKey, tag) <==> tag in MergedTags(primary, secondary);
    }
  }

  lemma {:induction false} HashSetIsKeys(attachments: seq<Attachment>, h: string)
    ensures h in HashSet(attachments) <==> HasKey(attachments, AttachmentHash, h)
  {
    if HasKey(attachments, AttachmentHash, h) {
      var i :| 0 <= i < |attachments| && AttachmentHash(attachments[i]) == h;
      assert attachments[i] in attachments;
    }
  }

  lemma {:induction false} MergedAttachmentsSet(primary: seq<Attachment>, secondary: seq<Attachment>)
    ensures HashSet(MergedAttachments(primary, secondary)) == HashSet(primary) + HashSet(secondary)
    ensures UniqueKeys(MergedAttachments(primary, secondary), AttachmentHash)
  {
    var items := primary + secondary;
    DistinctByKeys(items, AttachmentHash);
    forall h
      ensures h in HashSet(MergedAttachments(primary, secondary)) <==> h in HashSet(primary) + HashSet(secondary)
    {
      HashSetIsKeys(MergedAttachments(primary, secondary), h);
      HashSetIsKeys(items, h);
      HashSetIsKeys(primary, h);
      HashSetIsKeys(secondary, h);
      assert HashSet(items) == HashSet(primary) + HashSet(secondary);
    }
  }

  lemma {:induction false} UniqueHashCount(attachments: seq<Attachment>)
    requires UniqueKeys(attachments, AttachmentHash)
    ensures |HashSet(attachments)| == |attachments|
  {
    if attachments != [] {
      var init, last := attachments[..|attachments| - 1], attachments[|attachments| - 1];
      UniqueHashCount(init);
      assert attachments == init + [last];
      assert last.hash !in HashSet(init);
      assert HashSet(attachments) == HashSet(init) + {last.hash};
    }
  }

  lemma {:induction false} SubsetCount<T>(a: set<T>, b: set<T>)
    requires a <= b
    ensures |a| <= |b|
  {
    assert b == a + (b - a);
  }

  /** At least as much content in every respect. */
  predicate AtLeast(b: Document, a: Document) {
    && TextLength(a.contentText) <= TextLength(b.contentText)
    && TextLength(a.contentHtml) <= TextLength(b.contentHtml)
    && TextLength(a.summary) <= TextLength(b.summary)
    && |a.attachments| <= |b.attachments|
    && (a.publishedAt.Some? ==> b.publishedAt.Some?)
    && (a.metadataStatus == READY ==> b.metadataStatus == READY)
  }

  /** More content never lowers the quality score, and texts can add at most 540 points to what
      attachments and the two flags give. */
  lemma {:induction false} ScoreGrows(a: Document, b: Document)
    requires AtLeast(b, a)
    ensures Score(a) <= Score(b)
    ensures 20 * |b.attachments| <= Score(b) <= 20 * |b.attachments| + 560
  {
    var texts := Min(TextLength(b.contentText), 400) + Min(TextLength(b.contentHtml), 200) / 2 + Min(TextLength(b.summary), 120) / 3;
    assert texts <= 540;
    assert Min(TextLength(a.contentHtml), 200) / 2 <= Min(TextLength(b.contentHtml), 200) / 2;
    assert Min(TextLength(a.summary), 120) / 3 <= Min(TextLength(b.summary), 120) / 3;
  }

  /** Every measure of content is the maximum or the union of the two sides'. */
  ghost predicate Joins(m: Document, a: Document, b: Document) {
    && |m.title| == Max(|a.title|, |b.title|)
    && TextLength(m.summary) == Max(TextLength(a.summary), TextLength(b.summary))
    && TextLength(m.contentText) == Max(TextLength(a.contentText), TextLength(b.contentText))
    && TextLength(m.contentHtml) == Max(TextLength(a.contentHtml), TextLength(b.contentHtml))
    && TagSet(m.industryTags) == TagSet(a.industryTags) + TagSet(b.industryTags)
    && TagSet(m.marketTags) == TagSet(a.marketTags) + TagSet(b.marketTags)
    && HashSet(m.attachments) == HashSet(a.attachments) + HashSet(b.attachments)
    && UniqueAttachments(m)
    && (m.publishedAt.Some? <==> a.publishedAt.Some? || b.publishedAt.Some?)
    && (m.metadataStatus == READY <==> a.metadataStatus == READY || b.metadataStatus == READY)
    && m.rawPayload.Keys == a.rawPayload.Keys + b.rawPayload.Keys
  }

  lemma {:induction false} RicherTextLength(primary: Option<string>, secondary: Option<string>)
    ensures TextLength(PickRicherText(primary, secondary)) == Max(TextLength(primary), TextLength(secondary))
  {
  }

  lemma {:induction false} MergeIntoJoins(primary: Document, secondary: Document)
    ensures Joins(MergeInto(primary, secondary), primary, secondary)
  {
    RicherTextLength(primary.summary, secondary.summary);
    RicherTextLength(primary.contentText, secondary.contentText);
    RicherTextLength(primary.contentHtml, secondary.contentHtml);
    MergedTagsSet(primary.industryTags, secondary.industryTags);
    MergedTagsSet(primary.marketTags, secondary.marketTags);
    MergedAttachmentsSet(primary.attachments, secondary.attachments);
  }

  /** A merge is a join of its sides, whichever side wins. */
  lemma {:induction false} MergeIsJoin(left: Document, right: Document)
    ensures Joins(Merge(left, right), left, right)
  {
    if RightIsPrimary(left, right) {
      MergeIntoJoins(right, left);
    } else {
      MergeIntoJoins(left, right);
    }
  }

  lemma {:induction false} JoinScoresHigher(m: Document, a: Document, b: Document)
    requires Joins(m, a, b) && UniqueAttachments(a)
    ensures Score(m) >= Score(a)
  {
    UniqueHashCount(m.attachments);
    UniqueHashCount(a.attachments);
    SubsetCount(HashSet(a.attachments), HashSet(m.attachments));
  }

  /** Without repeated hashes inside either side, a merge is at least as good as both. */
  lemma {:induction false} MergeScore(left: Document, right: Document)
    requires UniqueAttachments(left) && UniqueAttachments(right)
    ensures Score(Merge(left, right)) >= Score(left)
    ensures Score(Merge(left, right)) >= Score(right)
  {
    var m := Merge(left, right);
    MergeIsJoin(left, right);
    JoinScoresHigher(m, left, right);
    JoinScoresHigher(m, right, left);
  }

  // ---- which side wins ------------------------------------------------------------------------------

  /** The winner's text where it has one, the other side's otherwise. */
  predicate Prefers(m: Option<string>, winner: Option<string>, other: Option<string>) {
    m == if Truthy(winner) then winner else other
  }

  predicate PrefersDate(m: Option<nat>, winner: Option<nat>, other: Option<nat>) {
    m == if winner.Some? then winner else other
  }

  /** The longer text, the winner's on a tie; an empty one counts as missing. */
  predicate Richer(m: Option<string>, winner: Option<string>, other: Option<string>) {
    && (TextLength(winner) == 0 && TextLength(other) == 0 ==> m.None?)
    && (TextLength(winner) > 0 && TextLength(winner) >= TextLength(other) ==> m == winner)
    && (TextLength(other) > TextLength(winner) ==> m == other)
  }

  /** The better ranked side, the left one on a tie, gives the identity of the merged document
      and every field it has a value for; the other side fills the gaps. */
  lemma {:induction false} BetterSideWins(left: Document, right: Document)
    // the greater score wins, the later publication on a tie, where none counts as the earliest instant
    ensures var rightWins := Score(left) < Score(right)
                             || (Score(left) == Score(right) && left.publishedAt.GetOr(0) < right.publishedAt.GetOr(0));
            var winner, other := if rightWins then right else left, if rightWins then left else right;
            var m := Merge(left, right);
            && m.source == winner.source && m.urlHash == winner.urlHash && m.projectionStatus == winner.projectionStatus
            && Prefers(m.sourceDocumentId, winner.sourceDocumentId, other.sourceDocumentId)
            && Prefers(m.documentNo, winner.documentNo, other.documentNo)
            && Prefers(m.issuingAuthority, winner.issuingAuthority, other.issuingAuthority)
            && Prefers(m.policyLevel, winner.policyLevel, other.policyLevel)
            && Prefers(m.category, winner.category, other.category)
            && PrefersDate(m.publishedAt, winner.publishedAt, other.publishedAt)
            && PrefersDate(m.effectiveAt, winner.effectiveAt, other.effectiveAt)
            && PrefersDate(m.expiredAt, winner.expiredAt, other.expiredAt)
            && m.url == (if winner.url != "" then winner.url else other.url)
            && m.macroTopic == (if winner.macroTopic != OTHER_TOPIC then winner.macroTopic else other.macroTopic)
            && m.metadataStatus == (if winner.metadataStatus == READY then winner.metadataStatus else other.metadataStatus)
            && (forall k :: k in m.rawPayload <==> k in winner.rawPayload || k in other.rawPayload)
            && (forall k :: k in winner.rawPayload ==> m.rawPayload[k] == winner.rawPayload[k])
            && (forall k :: k in other.rawPayload && k !in winner.rawPayload ==> m.rawPayload[k] == other.rawPayload[k])
            && m.title == (if |winner.title| >= |other.title| then winner.title else other.title)
            && Richer(m.summary, winner.summary, other.summary)
            && Richer(m.contentText, winner.contentText, other.contentText)
            && Richer(m.contentHtml, winner.contentHtml, other.contentHtml)
  {
    hide Score, MergedTags, MergedAttachments;
  }

  /** Tags and attachments are the winner's followed by what only the other side has. */
  lemma {:induction false} WinnersListsFirst(left: Document, right: Document)
    // the greater score wins, the later publication on a tie, where none counts as the earliest instant
    ensures var rightWins := Score(left) < Score(right)
                             || (Score(left) == Score(right) && left.publishedAt.GetOr(0) < right.publishedAt.GetOr(0));
            var winner, other := if rightWins then right else left, if rightWins then left else right;
            var m := Merge(left, right);
            && FirstMentions(m.industryTags, winner.industryTags + other.industryTags)
            && FirstMentions(m.marketTags, winner.marketTags + other.marketTags)
            && FirstOfHash(m.attachments, winner.attachments + other.attachments)
  {
    hide Score, FirstMentions, FirstOfHash, DistinctBy;
    var winner, other := if RightIsPrimary(left, right) then right else left, if RightIsPrimary(left, right) then left else right;
    MergedTagsAreFirst(winner.industryTags + other.industryTags);
    MergedTagsAreFirst(winner.marketTags + other.marketTags);
    MergedAttachmentsAreFirst(winner.attachments + other.attachments);
  }
}
