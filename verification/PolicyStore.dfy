/** The two-way upsert of policy_repository.py into a table with two unique constraints. */
module PolicyStore {
  import opened Wrappers
  import opened Sequences
  import opened PolicyDocuments
  import opened PolicyLinkage

  /** A row keeps the document's fields; its attachment rows, in insertion order, sit beside. */
  datatype Row = Row(content: Document, syncJobId: Option<string>, attachments: seq<Attachment>)

  datatype Table = Table(rows: map<nat, Row>, nextId: nat)

  datatype UpsertError = IntegrityError

  function Payload(d: Document): Document {
    d.(attachments := [])
  }

  // ---- attachments -----------------------------------------------------------------------

  function AttachmentKey(a: Attachment): string {
    if a.hash != "" then a.hash else a.url
  }

  /** `existing_by_hash`: the last row of each lookup key. */
  function IndexAttachments(rows: seq<Attachment>): (r: map<string, nat>)
    ensures forall k :: k in r ==> r[k] < |rows| && AttachmentKey(rows[r[k]]) == k
  {
    if rows == [] then map[]
    else IndexAttachments(rows[..|rows| - 1])[AttachmentKey(rows[|rows| - 1]) := |rows| - 1]
  }

  predicate Addresses(index: map<string, nat>, n: nat) {
    forall k :: k in index ==> index[k] < n
  }

  /** Overwrites the row found under the key taken before the loop, or adds one. */
  function ApplyAttachments(rows: seq<Attachment>, index: map<string, nat>, items: seq<Attachment>): (r: seq<Attachment>)
    requires Addresses(index, |rows|)
    ensures |r| >= |rows|
  {
    if items == [] then rows
    else
      var before := ApplyAttachments(rows, index, items[..|items| - 1]);
      var a := items[|items| - 1];
      if AttachmentKey(a) in index then before[index[AttachmentKey(a)] := a] else before + [a]
  }

  function UpsertAttachments(rows: seq<Attachment>, items: seq<Attachment>): seq<Attachment> {
    ApplyAttachments(rows, IndexAttachments(rows), items)
  }

  function LastWithKey(items: seq<Attachment>, k: string): Option<Attachment> {
    if items == [] then None
    else if AttachmentKey(items[|items| - 1]) == k then Some(items[|items| - 1])
    else LastWithKey(items[..|items| - 1], k)
  }

  lemma {:induction false} IndexAfterOverwrite(rows: seq<Attachment>, i: nat, a: Attachment)
    requires i < |rows| && AttachmentKey(a) == AttachmentKey(rows[i])
    ensures IndexAttachments(rows[i := a]) == IndexAttachments(rows)
  {
    var n := |rows| - 1;
    if i < n {
      IndexAfterOverwrite(rows[..n], i, a);
      assert rows[i := a][..n] == rows[..n][i := a];
    } else {
      assert rows[i := a][..n] == rows[..n];
    }
  }

  lemma {:induction false} IndexAfterAppend(rows: seq<Attachment>, a: Attachment)
    ensures IndexAttachments(rows + [a]) == IndexAttachments(rows)[AttachmentKey(a) := |rows|]
  {
    assert (rows + [a])[..|rows|] == rows;
  }

  /** After the loop the last row of each key holds the last item given for it, and no key
      that was indexed before has moved. */
  lemma {:induction false} AppliedIndex(rows: seq<Attachment>, items: seq<Attachment>)
    ensures var r, before := UpsertAttachments(rows, items), IndexAttachments(rows);
      && (forall k :: k in before ==> k in IndexAttachments(r) && IndexAttachments(r)[k] == before[k])
      && (forall k :: LastWithKey(items, k).Some? ==>
            k in IndexAttachments(r) && r[IndexAttachments(r)[k]] == LastWithKey(items, k).value)
  {
    if items != [] {
      var init, a := items[..|items| - 1], items[|items| - 1];
      var before := UpsertAttachments(rows, init);
      var index := IndexAttachments(rows);
      assert UpsertAttachments(rows, items)
          == if AttachmentKey(a) in index then before[index[AttachmentKey(a)] := a] else before + [a];
      hide ApplyAttachments, UpsertAttachments, AttachmentKey;
      AppliedIndex(rows, init);
      if AttachmentKey(a) in index {
        assert IndexAttachments(before)[AttachmentKey(a)] == index[AttachmentKey(a)];
        IndexAfterOverwrite(before, index[AttachmentKey(a)], a);
      } else {
        IndexAfterAppend(before, a);
      }
    }
  }

  /** One more item, whose key is indexed. */
  lemma {:induction false} ReappliedStep(rows: seq<Attachment>, index: map<string, nat>, items: seq<Attachment>, before: seq<Attachment>)
    requires items != [] && AttachmentKey(items[|items| - 1]) in index && Addresses(index, |rows|)
    requires forall k :: k in index ==> AttachmentKey(rows[index[k]]) == k
    requires before == ApplyAttachments(rows, index, items[..|items| - 1]) && |before| == |rows|
    requires forall k :: k in index ==> before[index[k]] == LastWithKey(items[..|items| - 1], k).GetOr(rows[index[k]])
    requires forall i :: 0 <= i < |rows| && i !in index.Values ==> before[i] == rows[i]
    ensures var r := ApplyAttachments(rows, index, items);
      && |r| == |rows|
      && (forall k :: k in index ==> r[index[k]] == LastWithKey(items, k).GetOr(rows[index[k]]))
      && (forall i :: 0 <= i < |rows| && i !in index.Values ==> r[i] == rows[i])
  {
    hide AttachmentKey;
    var a := items[|items| - 1];
    var r := ApplyAttachments(rows, index, items);
    assert r == before[index[AttachmentKey(a)] := a];
    assert forall k :: k in index && k != AttachmentKey(a) ==> index[k] != index[AttachmentKey(a)];
  }

  /** A second application of the same items to their own result: keys already visited hold
      their last item, all other rows are untouched. */
  lemma {:induction false} Reapplied(rows: seq<Attachment>, items: seq<Attachment>, n: nat)
    requires n <= |items|
    requires forall k :: LastWithKey(items, k).Some? ==> k in IndexAttachments(rows)
    ensures var r, index := ApplyAttachments(rows, IndexAttachments(rows), items[..n]), IndexAttachments(rows);
      && |r| == |rows|
      && (forall k :: k in index ==> r[index[k]] == LastWithKey(items[..n], k).GetOr(rows[index[k]]))
      && (forall i :: 0 <= i < |rows| && i !in index.Values ==> r[i] == rows[i])
  {
    var index := IndexAttachments(rows);
    if n > 0 {
      var so, a := items[..n], items[n - 1];
      assert so[..|so| - 1] == items[..n - 1] && so[|so| - 1] == a;
      LastWithKeyOf(items, n - 1);
      hide ApplyAttachments, LastWithKey, AttachmentKey;
      Reapplied(rows, items, n - 1);
      ReappliedStep(rows, index, so, ApplyAttachments(rows, index, items[..n - 1]));
    } else {
      assert items[..0] == [];
    }
  }

  lemma {:induction false} LastWithKeyOf(items: seq<Attachment>, i: nat)
    requires i < |items|
    ensures LastWithKey(items, AttachmentKey(items[i])).Some?
  {
    var n := |items| - 1;
    if i < n {
      LastWithKeyOf(items[..n], i);
      assert items[..n][i] == items[i];
    }
  }

  /** Upserting the same attachments again adds no row and changes none. */
  lemma {:induction false} AttachmentsUpsertIsIdempotent(rows: seq<Attachment>, items: seq<Attachment>)
    ensures UpsertAttachments(UpsertAttachments(rows, items), items) == UpsertAttachments(rows, items)
  {
    var r := UpsertAttachments(rows, items);
    var index := IndexAttachments(r);
    AppliedIndex(rows, items);
    Reapplied(r, items, |items|);
    assert items[..|items|] == items;
    var again := UpsertAttachments(r, items);
    forall i | 0 <= i < |r|
      ensures again[i] == r[i]
    {
      if i in index.Values {
        var k :| k in index && index[k] == i;
      }
    }
  }

  // ---- attachments in their own fields -----------------------------------------------------------

  /** The same lookup key: the hash, or the URL where there is no hash. */
  predicate SameFile(a: Attachment, b: Attachment) {
    && (a.hash != "" && b.hash != "" ==> a.hash == b.hash)
    && (a.hash != "" && b.hash == "" ==> a.hash == b.url)
    && (a.hash == "" && b.hash != "" ==> a.url == b.hash)
    && (a.hash == "" && b.hash == "" ==> a.url == b.url)
  }

  /** Item m is the last one of its file. */
  predicate LastOfFile(items: seq<Attachment>, m: nat) {
    m < |items| && forall n :: m < n < |items| ==> !SameFile(items[n], items[m])
  }

  predicate OnFile(rows: seq<Attachment>, a: Attachment) {
    exists i :: 0 <= i < |rows| && SameFile(rows[i], a)
  }

  /** What the stored list is after the given items, row by row: the last row of a file holds the
      last item given for it, or what it held; other old rows stay; behind them come the items
      whose file had no row, in order, at the positions `at`. */
  ghost predicate Stored(rows: seq<Attachment>, items: seq<Attachment>, r: seq<Attachment>, at: seq<nat>) {
    && |r| == |rows| + |at| && (forall i, j :: 0 <= i < j < |at| ==> at[i] < at[j])
    && (forall i :: 0 <= i < |at| ==> at[i] < |items| && r[|rows| + i] == items[at[i]])
    && (forall m: nat :: m < |items| ==> (m in at <==> !OnFile(rows, items[m])))
    && (forall i: nat :: i < |rows| && (!LastOfFile(rows, i) || !OnFile(items, rows[i])) ==> r[i] == rows[i])
    && (forall i: nat, m: nat :: LastOfFile(rows, i) && LastOfFile(items, m) && SameFile(items[m], rows[i]) ==> r[i] == items[m])
  }

  lemma {:induction false} SameFileIff(a: Attachment, b: Attachment)
    ensures SameFile(a, b) <==> AttachmentKey(a) == AttachmentKey(b)
  {
  }

  lemma {:induction false} IndexedIsLast(rows: seq<Attachment>, k: string)
    ensures k in IndexAttachments(rows) <==> exists i :: 0 <= i < |rows| && AttachmentKey(rows[i]) == k
    ensures k in IndexAttachments(rows) ==>
              forall n :: IndexAttachments(rows)[k] < n < |rows| ==> AttachmentKey(rows[n]) != k
  {
    if rows != [] {
      IndexedIsLast(rows[..|rows| - 1], k);
      assert forall i :: 0 <= i < |rows| - 1 ==> rows[..|rows| - 1][i] == rows[i];
    }
  }

  lemma {:induction false} LastWithKeyIs(items: seq<Attachment>, k: string)
    ensures LastWithKey(items, k).None? <==> forall m :: 0 <= m < |items| ==> AttachmentKey(items[m]) != k
    ensures forall m :: 0 <= m < |items| && AttachmentKey(items[m]) == k && (forall n :: m < n < |items| ==> AttachmentKey(items[n]) != k) ==>
              LastWithKey(items, k) == Some(items[m])
  {
    if items != [] {
      LastWithKeyIs(items[..|items| - 1], k);
      assert forall i :: 0 <= i < |items| - 1 ==> items[..|items| - 1][i] == items[i];
    }
  }

  ghost predicate Applied(rows: seq<Attachment>, index: map<string, nat>, items: seq<Attachment>, r: seq<Attachment>, at: seq<nat>)
    requires Addresses(index, |rows|)
  {
    && |r| == |rows| + |at| && (forall i, j :: 0 <= i < j < |at| ==> at[i] < at[j])
    && (forall i :: 0 <= i < |at| ==> at[i] < |items| && r[|rows| + i] == items[at[i]])
    && (forall m: nat :: m < |items| ==> (m in at <==> AttachmentKey(items[m]) !in index))
    && (forall k :: k in index ==> r[index[k]] == LastWithKey(items, k).GetOr(rows[index[k]]))
    && (forall i :: 0 <= i < |rows| && i !in index.Values ==> r[i] == rows[i])
  }

  lemma {:induction false} OverwritesOne(rows: seq<Attachment>, index: map<string, nat>, items: seq<Attachment>, a: Attachment,
                                         r: seq<Attachment>, at: seq<nat>)
    requires Addresses(index, |rows|) && Applied(rows, index, items, r, at) && AttachmentKey(a) in index
    requires forall k :: k in index ==> AttachmentKey(rows[index[k]]) == k
    ensures Applied(rows, index, items + [a], r[index[AttachmentKey(a)] := a], at)
  {
    hide AttachmentKey;
    var more := items + [a];
    assert more[..|items|] == items && forall m :: 0 <= m < |items| ==> more[m] == items[m];
    assert |items| !in at;
  }

  lemma {:induction false} AddsOne(rows: seq<Attachment>, index: map<string, nat>, items: seq<Attachment>, a: Attachment,
                                   r: seq<Attachment>, at: seq<nat>)
    requires Addresses(index, |rows|) && Applied(rows, index, items, r, at) && AttachmentKey(a) !in index
    ensures Applied(rows, index, items + [a], r + [a], at + [|items|])
  {
    hide AttachmentKey;
    var more, at' := items + [a], at + [|items|];
    assert more[..|items|] == items && forall m :: 0 <= m < |items| ==> more[m] == items[m];
    assert at'[|at|] == |items|;
    forall m: nat | m < |more|
      ensures m in at' <==> AttachmentKey(more[m]) !in index
    {
      assert m < |items| ==> (m in at' <==> m in at);
    }
  }

  lemma {:induction false} AppliedAll(rows: seq<Attachment>, index: map<string, nat>, items: seq<Attachment>) returns (at: seq<nat>)
    requires Addresses(index, |rows|) && forall k :: k in index ==> AttachmentKey(rows[index[k]]) == k
    ensures Applied(rows, index, items, ApplyAttachments(rows, index, items), at)
  {
    if items == [] {
      at := [];
    } else {
      var init, a := items[..|items| - 1], items[|items| - 1];
      assert items == init + [a];
      var r := ApplyAttachments(rows, index, init);
      assert ApplyAttachments(rows, index, items)
          == if AttachmentKey(a) in index then r[index[AttachmentKey(a)] := a] else r + [a];
      hide AttachmentKey, Applied, ApplyAttachments;
      at := AppliedAll(rows, index, init);
      if AttachmentKey(a) in index {
        OverwritesOne(rows, index, init, a, r, at);
      } else {
        AddsOne(rows, index, init, a, r, at);
        at := at + [|init|];
      }
    }
  }

  lemma {:induction false} OldRowOf(rows: seq<Attachment>, items: seq<Attachment>, r: seq<Attachment>, at: seq<nat>, i: nat)
    requires Applied(rows, IndexAttachments(rows), items, r, at) && i < |rows|
    ensures !LastOfFile(rows, i) || !OnFile(items, rows[i]) ==> r[i] == rows[i]
    ensures forall m: nat :: LastOfFile(rows, i) && LastOfFile(items, m) && SameFile(items[m], rows[i]) ==> r[i] == items[m]
  {
    var k, index := AttachmentKey(rows[i]), IndexAttachments(rows);
    IndexedIsLast(rows, k);
    LastWithKeyIs(items, k);
    forall a, b
      ensures SameFile(a, b) <==> AttachmentKey(a) == AttachmentKey(b)
    {
      SameFileIff(a, b);
    }
    hide AttachmentKey, SameFile, IndexAttachments, LastWithKey;
    assert k in index by { assert AttachmentKey(rows[i]) == k; }
    if LastOfFile(rows, i) {
      assert index[k] == i;
    } else {
      assert index[k] != i && forall k' :: k' in index && index[k'] == i ==> k' == k;
    }
  }

  /** The attachments of a row after an upsert, in the attachments' own fields. */
  lemma {:induction false} AttachmentsAreStored(rows: seq<Attachment>, items: seq<Attachment>) returns (at: seq<nat>)
    ensures Stored(rows, items, UpsertAttachments(rows, items), at)
  {
    var r, index := UpsertAttachments(rows, items), IndexAttachments(rows);
    at := AppliedAll(rows, index, items);
    forall i: nat | i < |rows|
      ensures !LastOfFile(rows, i) || !OnFile(items, rows[i]) ==> r[i] == rows[i]
      ensures forall m: nat :: LastOfFile(rows, i) && LastOfFile(items, m) && SameFile(items[m], rows[i]) ==> r[i] == items[m]
    {
      OldRowOf(rows, items, r, at, i);
    }
    forall m: nat | m < |items|
      ensures m in at <==> !OnFile(rows, items[m])
    {
      NewFile(rows, items[m]);
    }
    hide UpsertAttachments, LastOfFile, SameFile;
  }

  /** Whatever is given last for a file is in the list, and whatever was there for another file stays. */
  lemma {:induction false} GivenAndKept(rows: seq<Attachment>, items: seq<Attachment>)
    ensures var r := UpsertAttachments(rows, items);
            && (forall m: nat :: LastOfFile(items, m) ==> items[m] in r)
            && (forall a :: a in rows && !OnFile(items, a) ==> a in r)
            && (forall a :: a in r ==> a in rows || a in items)
  {
    var r := UpsertAttachments(rows, items);
    var at := AttachmentsAreStored(rows, items);
    hide UpsertAttachments;
    forall m: nat | LastOfFile(items, m)
      ensures items[m] in r
    {
      if OnFile(rows, items[m]) {
        var i := LastRowOf(rows, items[m]);
        assert r[i] == items[m];
      } else {
        var i :| 0 <= i < |at| && at[i] == m;
        assert r[|rows| + i] == items[m];
      }
    }
    forall a | a in r
      ensures a in rows || a in items
    {
      var i :| 0 <= i < |r| && r[i] == a;
      FromEither(rows, items, r, at, i);
    }
  }

  lemma {:induction false} FromEither(rows: seq<Attachment>, items: seq<Attachment>, r: seq<Attachment>, at: seq<nat>, i: nat)
    requires Stored(rows, items, r, at) && i < |r|
    ensures r[i] in rows || r[i] in items
  {
    if i < |rows| {
      if LastOfFile(rows, i) && OnFile(items, rows[i]) {
        var m := LastRowOf(items, rows[i]);
        assert r[i] == items[m];
      }
    } else {
      assert r[|rows| + (i - |rows|)] == items[at[i - |rows|]];
    }
  }

  lemma {:induction false} LastRowOf(rows: seq<Attachment>, a: Attachment) returns (i: nat)
    requires OnFile(rows, a)
    ensures LastOfFile(rows, i) && SameFile(rows[i], a) && SameFile(a, rows[i])
  {
    var k := AttachmentKey(a);
    NewFile(rows, a);
    IndexedIsLast(rows, k);
    i := IndexAttachments(rows)[k];
    forall b, c
      ensures SameFile(b, c) <==> AttachmentKey(b) == AttachmentKey(c)
    {
      SameFileIff(b, c);
    }
  }

  lemma {:induction false} NewFile(rows: seq<Attachment>, a: Attachment)
    ensures OnFile(rows, a) <==> AttachmentKey(a) in IndexAttachments(rows)
  {
    IndexedIsLast(rows, AttachmentKey(a));
    forall i | 0 <= i < |rows|
      ensures SameFile(rows[i], a) <==> AttachmentKey(rows[i]) == AttachmentKey(a)
    {
      SameFileIff(rows[i], a);
    }
  }

  // ---- rows ----------------------------------------------------------------------------------

  predicate SameId(a: Document, b: Document) {
    a.source == b.source && a.sourceDocumentId == b.sourceDocumentId
  }

  predicate SameUrl(a: Document, b: Document) {
    a.source == b.source && a.urlHash == b.urlHash
  }

  /** Both unique constraints; SQL does not compare missing ids. */
  predicate Clash(a: Document, b: Document) {
    (a.sourceDocumentId.Some? && SameId(a, b)) || SameUrl(a, b)
  }

  ghost predicate Unique(t: Table) {
    && (forall i, j :: i in t.rows && j in t.rows && i != j ==> !Clash(t.rows[i].content, t.rows[j].content))
    && (forall i :: i in t.rows ==> i < t.nextId)
  }

  ghost predicate IdMatch(t: Table, d: Document, i: nat) {
    Truthy(d.sourceDocumentId) && i in t.rows && SameId(t.rows[i].content, d)
  }

  ghost predicate UrlMatch(t: Table, d: Document, i: nat) {
    i in t.rows && SameUrl(t.rows[i].content, d)
  }

  ghost predicate HasIdMatch(t: Table, d: Document) {
    exists i :: IdMatch(t, d, i)
  }

  ghost predicate HasUrlMatch(t: Table, d: Document) {
    exists i :: UrlMatch(t, d, i)
  }

  /** The row a document updates: by source id, else by URL, else none. */
  ghost function Existing(t: Table, d: Document): (r: Option<nat>)
    ensures r.Some? <==> HasIdMatch(t, d) || HasUrlMatch(t, d)
    ensures HasIdMatch(t, d) ==> IdMatch(t, d, r.value)
    ensures !HasIdMatch(t, d) && HasUrlMatch(t, d) ==> UrlMatch(t, d, r.value)
  {
    if HasIdMatch(t, d) then
      var i :| IdMatch(t, d, i);
      Some(i)
    else if HasUrlMatch(t, d) then
      var i :| UrlMatch(t, d, i);
      Some(i)
    else None
  }

  /** Writing the document would leave two rows that clash. */
  ghost predicate Rejected(t: Table, d: Document, id: nat) {
    exists j :: j in t.rows && j != id && Clash(t.rows[j].content, d)
  }

  ghost function Written(t: Table, d: Document, job: Option<string>, id: nat): Row {
    Row(Payload(d), job, UpsertAttachments(if id in t.rows then t.rows[id].attachments else [], d.attachments))
  }

  /** What one document does to the table; the flush rejects a clash with another row. */
  ghost function UpsertOne(t: Table, d: Document, job: Option<string>): Result<(Table, nat, bool), UpsertError> {
    var id := Existing(t, d).GetOr(t.nextId);
    if Rejected(t, d, id) then Failure(IntegrityError)
    else
      Success((Table(t.rows[id := Written(t, d, job, id)], Max(t.nextId, id + 1)), id, Existing(t, d).None?))
  }

  lemma {:induction false} UpsertOneIs(t: Table, d: Document, job: Option<string>)
    ensures var id := Existing(t, d).GetOr(t.nextId);
      && (UpsertOne(t, d, job).Failure? <==> exists j :: j in t.rows && j != id && Clash(t.rows[j].content, d))
      && (UpsertOne(t, d, job).Success? ==>
            var attachments := UpsertAttachments(if id in t.rows then t.rows[id].attachments else [], d.attachments);
            UpsertOne(t, d, job) == Success((Table(t.rows[id := Row(Payload(d), job, attachments)], Max(t.nextId, id + 1)), id, Existing(t, d).None?)))
  {
  }

  /** What normalisation guarantees of an id: absent, or something left after squeezing. */
  predicate WellFormed(d: Document) {
    d.sourceDocumentId.Some? ==> NormalizeKeyText(d.sourceDocumentId).Some?
  }

  /** The document matches one row by id and a different row by URL. */
  ghost predicate CrossMatched(t: Table, d: Document) {
    exists i, j :: IdMatch(t, d, i) && UrlMatch(t, d, j) && i != j
  }

  lemma {:induction false} WellFormedIsTruthy(d: Document)
    requires WellFormed(d) && d.sourceDocumentId.Some?
    ensures Truthy(d.sourceDocumentId)
  {
    if !Truthy(d.sourceDocumentId) {
      UntruthyHasNoKey(d.sourceDocumentId);
    }
  }

  /** One upsert is rejected exactly when the document is torn between two rows. */
  lemma {:induction false} UpsertFailsIffCrossMatched(t: Table, d: Document, job: Option<string>)
    requires Unique(t) && WellFormed(d)
    ensures UpsertOne(t, d, job).Failure? <==> CrossMatched(t, d)
  {
    var id := Existing(t, d).GetOr(t.nextId);
    if d.sourceDocumentId.Some? {
      WellFormedIsTruthy(d);
    }
    forall i | IdMatch(t, d, i) || (!HasIdMatch(t, d) && UrlMatch(t, d, i))
      ensures i == id
    {
      assert i != id ==> Clash(t.rows[i].content, t.rows[id].content);
    }
    if Rejected(t, d, id) {
      var j :| j in t.rows && j != id && Clash(t.rows[j].content, d);
      assert UrlMatch(t, d, j) && IdMatch(t, d, id);
    }
    if CrossMatched(t, d) {
      var i, j :| IdMatch(t, d, i) && UrlMatch(t, d, j) && i != j;
      assert Clash(t.rows[j].content, d);
    }
  }

  lemma {:induction false} UpsertKeepsUnique(t: Table, d: Document, job: Option<string>)
    requires Unique(t) && UpsertOne(t, d, job).Success?
    ensures Unique(UpsertOne(t, d, job).value.0)
  {
    var id := Existing(t, d).GetOr(t.nextId);
    var r := UpsertOne(t, d, job).value.0;
    forall i, j | i in r.rows && j in r.rows && i != j
      ensures !Clash(r.rows[i].content, r.rows[j].content)
    {
      assert Clash(r.rows[i].content, r.rows[j].content) ==> Clash(r.rows[j].content, r.rows[i].content);
      if i == id {
        assert r.rows[i].content == Payload(d) && !Clash(t.rows[j].content, d);
      } else if j == id {
        assert r.rows[j].content == Payload(d) && !Clash(t.rows[i].content, d);
      }
    }
  }

  // ---- a batch ---------------------------------------------------------------------------------

  datatype Outcome = Outcome(table: Table, ids: seq<nat>, inserted: nat, updated: nat)

  ghost function Advance(o: Outcome, step: Result<(Table, nat, bool), UpsertError>): Result<Outcome, UpsertError> {
    match step
    case Failure(e) => Failure(e)
    case Success((table, id, created)) =>
      Success(Outcome(table, o.ids + [id], o.inserted + (if created then 1 else 0),
                      o.updated + (if created then 0 else 1)))
  }

  ghost function UpsertAll(t: Table, docs: seq<Document>, job: Option<string>): Result<Outcome, UpsertError> {
    if docs == [] then Success(Outcome(t, [], 0, 0))
    else
      var before := UpsertAll(t, docs[..|docs| - 1], job);
      if before.Failure? then before
      else Advance(before.value, UpsertOne(before.value.table, docs[|docs| - 1], job))
  }

  /** What the writer relies on: pairwise key-disjoint documents with usable ids. */
  ghost predicate Batch(docs: seq<Document>) {
    KeyDisjoint(docs) && forall i :: 0 <= i < |docs| ==> WellFormed(docs[i])
  }

  lemma {:induction false} DisjointDocumentsDoNotClash(a: Document, b: Document)
    requires KeySet(a) !! KeySet(b) && WellFormed(a)
    ensures !Clash(a, b)
  {
    assert UrlKey(a.source, a.urlHash) in KeySet(a);
    assert UrlKey(b.source, b.urlHash) in KeySet(b);
    assert forall id :: NormalizeKeyText(a.sourceDocumentId) == Some(id) ==> SourceIdKey(a.source, id) in KeySet(a);
    assert forall id :: NormalizeKeyText(b.sourceDocumentId) == Some(id) ==> SourceIdKey(b.source, id) in KeySet(b);
  }

  /** The rows written so far hold exactly their documents; the others are as they were. */
  ghost predicate Wrote(t: Table, docs: seq<Document>, job: Option<string>, o: Outcome) {
    && |o.ids| == |docs| && o.inserted + o.updated == |docs|
    && (forall i, j :: 0 <= i < j < |o.ids| ==> o.ids[i] != o.ids[j])
    && (forall i :: 0 <= i < |o.ids| ==>
          o.ids[i] in o.table.rows && o.table.rows[o.ids[i]] == Written(t, docs[i], job, o.ids[i]))
    && (forall id :: id in t.rows && id !in o.ids ==> id in o.table.rows && o.table.rows[id] == t.rows[id])
    && (forall id :: id in o.table.rows ==> id in t.rows || id in o.ids)
    && t.nextId <= o.table.nextId
  }

  /** A document of the batch can only meet rows the batch has not written. */
  lemma {:induction false} MeetsOnlyOldRows(t: Table, docs: seq<Document>, d: Document, job: Option<string>, o: Outcome, id: nat)
    requires Batch(docs + [d]) && Wrote(t, docs, job, o) && id in o.table.rows
    requires IdMatch(o.table, d, id) || UrlMatch(o.table, d, id)
    ensures id !in o.ids && id in t.rows && o.table.rows[id] == t.rows[id]
  {
    forall i | 0 <= i < |o.ids|
      ensures !IdMatch(o.table, d, o.ids[i]) && !UrlMatch(o.table, d, o.ids[i])
    {
      assert (docs + [d])[i] == docs[i] && (docs + [d])[|docs|] == d;
      DisjointDocumentsDoNotClash(docs[i], d);
      assert o.table.rows[o.ids[i]].content == Payload(docs[i]);
    }
  }

  lemma {:induction false} StepWrites(t: Table, docs: seq<Document>, d: Document, job: Option<string>, o: Outcome)
    requires Unique(o.table) && Batch(docs + [d]) && Wrote(t, docs, job, o)
    requires !CrossMatched(o.table, d)
    ensures UpsertOne(o.table, d, job).Success?
    ensures var (table, id, created) := UpsertOne(o.table, d, job).value;
      && id !in o.ids && (created <==> id !in t.rows)
      && table.rows == o.table.rows[id := Written(t, d, job, id)]
      && table.nextId >= o.table.nextId
      && (!created ==> id in o.table.rows)
  {
    assert (docs + [d])[|docs|] == d;
    UpsertFailsIffCrossMatched(o.table, d, job);
    var id := Existing(o.table, d).GetOr(o.table.nextId);
    if Existing(o.table, d).Some? {
      MeetsOnlyOldRows(t, docs, d, job, o, id);
    } else {
      assert id !in o.table.rows;
    }
  }

  ghost predicate Meets(t: Table, d: Document, id: nat) {
    IdMatch(t, d, id) || UrlMatch(t, d, id)
  }

  ghost predicate MetByAny(t: Table, docs: seq<Document>, id: nat) {
    exists m :: 0 <= m < |docs| && Meets(t, docs[m], id)
  }

  /** The rows of the first table that were overwritten are those some document met there. */
  ghost predicate Visited(t: Table, docs: seq<Document>, ids: seq<nat>) {
    forall id :: id in t.rows ==> (id in ids <==> MetByAny(t, docs, id))
  }

  /** The document matches one row by id and another by URL, and no earlier one of the batch has
      met either row. */
  ghost predicate TornBetween(t: Table, earlier: seq<Document>, d: Document) {
    exists i, j :: IdMatch(t, d, i) && UrlMatch(t, d, j) && i != j && !MetByAny(t, earlier, i) && !MetByAny(t, earlier, j)
  }

  ghost predicate SomeTorn(t: Table, docs: seq<Document>) {
    exists k :: 0 <= k < |docs| && TornBetween(t, docs[..k], docs[k])
  }

  /** An overwritten row cannot be met, and any other is as it was. */
  lemma {:induction false} MeetsIff(t: Table, docs: seq<Document>, d: Document, job: Option<string>, o: Outcome, id: nat)
    requires Batch(docs + [d]) && Wrote(t, docs, job, o)
    ensures IdMatch(o.table, d, id) <==> IdMatch(t, d, id) && id !in o.ids
    ensures UrlMatch(o.table, d, id) <==> UrlMatch(t, d, id) && id !in o.ids
  {
    if IdMatch(o.table, d, id) || UrlMatch(o.table, d, id) {
      MeetsOnlyOldRows(t, docs, d, job, o, id);
    }
  }

  lemma {:induction false} CrossMatchedIffTorn(t: Table, docs: seq<Document>, d: Document, job: Option<string>, o: Outcome)
    requires Batch(docs + [d]) && Wrote(t, docs, job, o) && Visited(t, docs, o.ids)
    ensures CrossMatched(o.table, d) <==> TornBetween(t, docs, d)
  {
    forall id
      ensures IdMatch(o.table, d, id) <==> IdMatch(t, d, id) && !MetByAny(t, docs, id)
      ensures UrlMatch(o.table, d, id) <==> UrlMatch(t, d, id) && !MetByAny(t, docs, id)
    {
      MeetsIff(t, docs, d, job, o, id);
      assert IdMatch(t, d, id) || UrlMatch(t, d, id) ==> id in t.rows;
    }
    hide IdMatch, UrlMatch, MetByAny, Wrote, Batch;
    if CrossMatched(o.table, d) {
      var i, j :| IdMatch(o.table, d, i) && UrlMatch(o.table, d, j) && i != j;
      assert IdMatch(t, d, i) && UrlMatch(t, d, j);
    }
    if TornBetween(t, docs, d) {
      var i, j :| IdMatch(t, d, i) && UrlMatch(t, d, j) && i != j && !MetByAny(t, docs, i) && !MetByAny(t, docs, j);
      assert IdMatch(o.table, d, i) && UrlMatch(o.table, d, j);
    }
  }

  /** A document that is not torn overwrites the one row it meets, or none. */
  lemma {:induction false} MeetsOnlyIts(t: Table, d: Document, id: nat)
    requires Unique(t) && WellFormed(d) && !CrossMatched(t, d) && Meets(t, d, id)
    ensures Existing(t, d) == Some(id)
  {
    if d.sourceDocumentId.Some? { WellFormedIsTruthy(d); }
    var at := Existing(t, d).value;
    assert id != at ==> !Clash(t.rows[id].content, t.rows[at].content);
    assert IdMatch(t, d, at) && UrlMatch(t, d, id) ==> at == id;
  }

  lemma {:induction false} MetOneMore(t: Table, docs: seq<Document>, d: Document, id: nat)
    ensures MetByAny(t, docs + [d], id) <==> MetByAny(t, docs, id) || Meets(t, d, id)
  {
    hide Meets;
    var more := docs + [d];
    assert more[|docs|] == d && forall m :: 0 <= m < |docs| ==> more[m] == docs[m];
  }

  lemma {:induction false} VisitsOneMore(t: Table, docs: seq<Document>, d: Document, job: Option<string>, o: Outcome, id: nat)
    requires Unique(o.table) && Batch(docs + [d]) && Wrote(t, docs, job, o) && Visited(t, docs, o.ids)
    requires !CrossMatched(o.table, d) && id == Existing(o.table, d).GetOr(o.table.nextId)
    ensures Visited(t, docs + [d], o.ids + [id])
  {
    assert (docs + [d])[|docs|] == d;
    forall i | i in t.rows
      ensures i in o.ids + [id] <==> MetByAny(t, docs + [d], i)
    {
      MetOneMore(t, docs, d, i);
      MeetsIff(t, docs, d, job, o, i);
      if i !in o.ids {
        assert i in o.table.rows;
        if Meets(t, d, i) { MeetsOnlyIts(o.table, d, i); }
      }
    }
  }

  lemma {:induction false} WroteOneMore(t: Table, docs: seq<Document>, d: Document, job: Option<string>, o: Outcome, p: Outcome, id: nat)
    requires Wrote(t, docs, job, o) && id !in o.ids
    requires p.ids == o.ids + [id] && p.inserted + p.updated == o.inserted + o.updated + 1
    requires p.table.rows == o.table.rows[id := Written(t, d, job, id)] && p.table.nextId >= o.table.nextId
    ensures Wrote(t, docs + [d], job, p)
  {
    forall i | 0 <= i < |p.ids|
      ensures p.ids[i] in p.table.rows && p.table.rows[p.ids[i]] == Written(t, (docs + [d])[i], job, p.ids[i])
    {
      if i < |o.ids| {
        assert p.ids[i] == o.ids[i] && o.ids[i] != id;
      }
    }
    forall i, j | 0 <= i < j < |p.ids|
      ensures p.ids[i] != p.ids[j]
    {
      assert o.ids[i] in o.ids;
    }
  }

  lemma {:induction false} BatchPrefix(docs: seq<Document>, d: Document)
    requires Batch(docs + [d])
    ensures Batch(docs) && WellFormed(d)
  {
    assert (docs + [d])[|docs|] == d;
    forall i | 0 <= i < |docs|
      ensures WellFormed(docs[i])
      ensures forall j :: i < j < |docs| ==> KeySet(docs[i]) !! KeySet(docs[j])
    {
      assert (docs + [d])[i] == docs[i];
      forall j | i < j < |docs|
        ensures KeySet(docs[i]) !! KeySet(docs[j])
      {
        assert KeySet((docs + [d])[i]) !! KeySet((docs + [d])[j]);
      }
    }
  }

  function Created(t: Table, ids: seq<nat>): nat {
    if ids == [] then 0
    else Created(t, ids[..|ids| - 1]) + (if ids[|ids| - 1] in t.rows then 0 else 1)
  }

  lemma {:induction false} TornOneMore(t: Table, docs: seq<Document>, d: Document)
    ensures SomeTorn(t, docs + [d]) <==> SomeTorn(t, docs) || TornBetween(t, docs, d)
  {
    hide TornBetween;
    var more := docs + [d];
    assert more[..|docs|] == docs && more[|docs|] == d;
    forall k | 0 <= k < |docs|
      ensures more[..k] == docs[..k] && more[k] == docs[k]
    {
    }
    if SomeTorn(t, docs) {
      var k :| 0 <= k < |docs| && TornBetween(t, docs[..k], docs[k]);
      assert TornBetween(t, more[..k], more[k]);
    }
    if SomeTorn(t, more) {
      var k :| 0 <= k < |more| && TornBetween(t, more[..k], more[k]);
      assert k < |docs| ==> TornBetween(t, docs[..k], docs[k]);
    }
  }

  lemma {:induction false} LastUpsert(t: Table, docs: seq<Document>, d: Document, job: Option<string>, o: Outcome)
    requires UpsertAll(t, docs, job) == Success(o)
    ensures UpsertAll(t, docs + [d], job) == Advance(o, UpsertOne(o.table, d, job))
  {
    hide UpsertOne;
    assert (docs + [d])[..|docs|] == docs;
  }

  ghost predicate FullyWritten(t: Table, docs: seq<Document>, job: Option<string>, o: Outcome) {
    Unique(o.table) && Wrote(t, docs, job, o) && Visited(t, docs, o.ids) && o.inserted == Created(t, o.ids)
  }

  lemma {:induction false} CreatedOneMore(t: Table, ids: seq<nat>, id: nat)
    ensures Created(t, ids + [id]) == Created(t, ids) + (if id in t.rows then 0 else 1)
  {
    assert (ids + [id])[..|ids|] == ids;
  }

  lemma {:induction false} ExistingIsWritten(t: Table, d: Document, job: Option<string>)
    requires UpsertOne(t, d, job).Success?
    ensures UpsertOne(t, d, job).value.1 == Existing(t, d).GetOr(t.nextId)
  {
  }

  lemma {:induction false} OneMore(t: Table, docs: seq<Document>, d: Document, job: Option<string>, o: Outcome, p: Outcome)
    requires Batch(docs + [d]) && WellFormed(d) && FullyWritten(t, docs, job, o)
    requires !CrossMatched(o.table, d) && UpsertOne(o.table, d, job).Success?
    requires Success(p) == Advance(o, UpsertOne(o.table, d, job))
    ensures FullyWritten(t, docs + [d], job, p)
  {
    hide CrossMatched, Visited, Unique, Wrote, Batch, UpsertOne, Written, Existing, Created;
    StepWrites(t, docs, d, job, o);
    UpsertKeepsUnique(o.table, d, job);
    var id := UpsertOne(o.table, d, job).value.1;
    WroteOneMore(t, docs, d, job, o, p, id);
    ExistingIsWritten(o.table, d, job);
    VisitsOneMore(t, docs, d, job, o, id);
    CreatedOneMore(t, o.ids, id);
  }

  lemma {:induction false} InsertedAddUp(t: Table, docs: seq<Document>, job: Option<string>, o: Outcome)
    requires FullyWritten(t, docs, job, o)
    ensures Unique(o.table) && Wrote(t, docs, job, o) && Visited(t, docs, o.ids) && o.inserted == Created(t, o.ids)
    ensures o.inserted + o.updated == |docs|
  {
  }

  lemma {:induction false} BatchOutcome(t: Table, docs: seq<Document>, job: Option<string>)
    requires Unique(t) && Batch(docs)
    ensures UpsertAll(t, docs, job).Failure? <==> SomeTorn(t, docs)
    ensures UpsertAll(t, docs, job).Success? ==> FullyWritten(t, docs, job, UpsertAll(t, docs, job).value)
  {
    if docs != [] {
      var init, d := docs[..|docs| - 1], docs[|docs| - 1];
      assert docs == init + [d];
      BatchPrefix(init, d);
      BatchOutcome(t, init, job);
      hide Batch, Unique, FullyWritten, SomeTorn, TornBetween, UpsertOne, CrossMatched, WellFormed;
      TornOneMore(t, init, d);
      if UpsertAll(t, init, job).Success? {
        var o := UpsertAll(t, init, job).value;
        InsertedAddUp(t, init, job, o);
        CrossMatchedIffTorn(t, init, d, job, o);
        UpsertFailsIffCrossMatched(o.table, d, job);
        LastUpsert(t, init, d, job, o);
        if UpsertAll(t, docs, job).Success? { OneMore(t, init, d, job, o, UpsertAll(t, docs, job).value); }
      }
    }
  }

  /** A key-disjoint batch is rejected if and only if one of its documents is torn between two
      rows of the first table that no earlier one has met. */
  lemma {:induction false} BatchFailsIff(t: Table, docs: seq<Document>, job: Option<string>)
    requires Unique(t) && Batch(docs)
    ensures UpsertAll(t, docs, job).Failure? <==> SomeTorn(t, docs)
  {
    hide *;
    BatchOutcome(t, docs, job);
  }

  /** A key-disjoint batch with no such document is written completely: pairwise different rows,
      nothing else touched, both constraints kept, and `inserted` counts exactly the rows that did
      not exist. */
  lemma {:induction false} BatchIsWritten(t: Table, docs: seq<Document>, job: Option<string>)
    requires Unique(t) && Batch(docs) && !SomeTorn(t, docs)
    ensures UpsertAll(t, docs, job).Success?
    ensures Wrote(t, docs, job, UpsertAll(t, docs, job).value)
    ensures Unique(UpsertAll(t, docs, job).value.table)
    ensures UpsertAll(t, docs, job).value.inserted == Created(t, UpsertAll(t, docs, job).value.ids)
  {
    hide *;
    BatchOutcome(t, docs, job);
    InsertedAddUp(t, docs, job, UpsertAll(t, docs, job).value);
  }

  // ---- what is stored, in the documents' own fields ------------------------------------------------

  /** Every field of the document is in the row, and the job. */
  predicate Carries(row: Row, d: Document, job: Option<string>) {
    row.content.(attachments := d.attachments) == d && row.syncJobId == job
  }

  /** A row written last by a document carries it, with every attachment it gives last for a file. */
  ghost predicate CarriesLast(t': Table, docs: seq<Document>, job: Option<string>, ids: seq<nat>) {
    && |ids| == |docs|
    && forall i :: 0 <= i < |ids| ==> ids[i] in t'.rows && (ids[i] !in ids[i + 1..] ==>
         && Carries(t'.rows[ids[i]], docs[i], job)
         && forall m: nat :: LastOfFile(docs[i].attachments, m) ==> docs[i].attachments[m] in t'.rows[ids[i]].attachments)
  }

  /** No document written to the row gives an attachment on this one's file. */
  ghost predicate Untouched(docs: seq<Document>, ids: seq<nat>, id: nat, a: Attachment)
    requires |ids| == |docs|
  {
    forall i :: 0 <= i < |ids| && ids[i] == id ==> !OnFile(docs[i].attachments, a)
  }

  /** Attachments of files nobody gave stay. */
  ghost predicate KeepsAttachments(t: Table, docs: seq<Document>, t': Table, ids: seq<nat>) {
    && |ids| == |docs|
    && forall id, a :: id in t.rows && a in t.rows[id].attachments && Untouched(docs, ids, id, a) ==>
         id in t'.rows && a in t'.rows[id].attachments
  }

  /** Rows nobody wrote stay, and there are no others. */
  ghost predicate OnlyThese(t: Table, t': Table, ids: seq<nat>) {
    && (forall id :: id in t.rows && id !in ids ==> id in t'.rows && t'.rows[id] == t.rows[id])
    && (forall id :: id in t'.rows ==> id in t.rows || id in ids)
  }

  /** What the table is after the documents. */
  ghost predicate Carried(t: Table, docs: seq<Document>, job: Option<string>, t': Table, ids: seq<nat>) {
    CarriesLast(t', docs, job, ids) && KeepsAttachments(t, docs, t', ids) && OnlyThese(t, t', ids)
  }

  lemma {:induction false} OneCarried(t: Table, d: Document, job: Option<string>)
    requires UpsertOne(t, d, job).Success?
    ensures var (t', id, created) := UpsertOne(t, d, job).value;
      && id in t'.rows && t'.rows == t.rows[id := t'.rows[id]] && (created <==> id !in t.rows || Existing(t, d).None?)
      && Carries(t'.rows[id], d, job)
      && (forall m: nat :: LastOfFile(d.attachments, m) ==> d.attachments[m] in t'.rows[id].attachments)
      && (id in t.rows ==> forall a :: a in t.rows[id].attachments && !OnFile(d.attachments, a) ==> a in t'.rows[id].attachments)
  {
    var id := UpsertOne(t, d, job).value.1;
    GivenAndKept(if id in t.rows then t.rows[id].attachments else [], d.attachments);
    hide UpsertAttachments, LastOfFile, OnFile;
  }

  lemma {:induction false} CarriedOneMore(t: Table, docs: seq<Document>, d: Document, job: Option<string>, t1: Table, ids: seq<nat>, t2: Table, id: nat)
    requires Carried(t, docs, job, t1, ids) && id in t2.rows && t2.rows == t1.rows[id := t2.rows[id]]
    requires Carries(t2.rows[id], d, job)
    requires forall m: nat :: LastOfFile(d.attachments, m) ==> d.attachments[m] in t2.rows[id].attachments
    requires id in t1.rows ==> forall a :: a in t1.rows[id].attachments && !OnFile(d.attachments, a) ==> a in t2.rows[id].attachments
    ensures Carried(t, docs + [d], job, t2, ids + [id])
  {
    hide CarriesLast, KeepsAttachments, OnlyThese, Carries, LastOfFile, OnFile;
    CarriesOneMore(docs, d, job, t1, ids, t2, id);
    KeepsOneMore(t, docs, d, t1, ids, t2, id);
    OnlyOneMore(t, t1, ids, t2, id);
  }

  lemma {:induction false} CarriesOneMore(docs: seq<Document>, d: Document, job: Option<string>, t1: Table, ids: seq<nat>, t2: Table, id: nat)
    requires CarriesLast(t1, docs, job, ids) && id in t2.rows && t2.rows == t1.rows[id := t2.rows[id]]
    requires Carries(t2.rows[id], d, job)
    requires forall m: nat :: LastOfFile(d.attachments, m) ==> d.attachments[m] in t2.rows[id].attachments
    ensures CarriesLast(t2, docs + [d], job, ids + [id])
  {
    hide Carries, LastOfFile;
    var more, ids' := docs + [d], ids + [id];
    assert more[|docs|] == d && ids'[|ids|] == id;
    forall i | 0 <= i < |ids|
      ensures ids'[i] == ids[i] && more[i] == docs[i] && ids'[i + 1..] == ids[i + 1..] + [id]
    {
    }
  }

  lemma {:induction false} KeepsOneMore(t: Table, docs: seq<Document>, d: Document, t1: Table, ids: seq<nat>, t2: Table, id: nat)
    requires KeepsAttachments(t, docs, t1, ids) && id in t2.rows && t2.rows == t1.rows[id := t2.rows[id]]
    requires id in t1.rows ==> forall a :: a in t1.rows[id].attachments && !OnFile(d.attachments, a) ==> a in t2.rows[id].attachments
    ensures KeepsAttachments(t, docs + [d], t2, ids + [id])
  {
    var more, ids' := docs + [d], ids + [id];
    forall k, a | k in t.rows && a in t.rows[k].attachments && Untouched(more, ids', k, a)
      ensures k in t2.rows && a in t2.rows[k].attachments
    {
      UntouchedBefore(docs, d, ids, id, k, a);
      hide OnFile, Untouched;
      assert k in t1.rows && a in t1.rows[k].attachments;
    }
  }

  lemma {:induction false} UntouchedBefore(docs: seq<Document>, d: Document, ids: seq<nat>, id: nat, k: nat, a: Attachment)
    requires |ids| == |docs| && Untouched(docs + [d], ids + [id], k, a)
    ensures Untouched(docs, ids, k, a) && (k == id ==> !OnFile(d.attachments, a))
  {
    hide OnFile;
    var more, ids' := docs + [d], ids + [id];
    assert ids'[|ids|] == id && more[|docs|] == d;
    forall i | 0 <= i < |ids| && ids[i] == k
      ensures !OnFile(docs[i].attachments, a)
    {
      assert ids'[i] == k && more[i] == docs[i];
    }
  }

  lemma {:induction false} OnlyOneMore(t: Table, t1: Table, ids: seq<nat>, t2: Table, id: nat)
    requires OnlyThese(t, t1, ids) && id in t2.rows && t2.rows == t1.rows[id := t2.rows[id]]
    ensures OnlyThese(t, t2, ids + [id])
  {
    assert forall k :: k in ids + [id] <==> k in ids || k == id;
  }

  /** Every successful batch stores what its documents say, whatever they share. */
  lemma {:induction false} BatchIsCarried(t: Table, docs: seq<Document>, job: Option<string>)
    requires UpsertAll(t, docs, job).Success?
    ensures Carried(t, docs, job, UpsertAll(t, docs, job).value.table, UpsertAll(t, docs, job).value.ids)
  {
    if docs != [] {
      var init, d := docs[..|docs| - 1], docs[|docs| - 1];
      assert docs == init + [d];
      BatchIsCarried(t, init, job);
      var o := UpsertAll(t, init, job).value;
      hide UpsertOne, Carried, Existing, LastOfFile, OnFile, Carries;
      OneCarried(o.table, d, job);
      var (t2, id, created) := UpsertOne(o.table, d, job).value;
      CarriedOneMore(t, init, d, job, o.table, o.ids, t2, id);
    }
  }

  // ---- the same batch again ----------------------------------------------------------------------

  /** The listed rows carry another job id; nothing else differs. */
  ghost predicate OnlyJobChanged(t: Table, ids: seq<nat>, job: Option<string>, t': Table) {
    && t'.nextId == t.nextId && t'.rows.Keys == t.rows.Keys
    && (forall id :: id in t.rows && id !in ids ==> t'.rows[id] == t.rows[id])
    && (forall id :: id in t.rows && id in ids ==> t'.rows[id] == t.rows[id].(syncJobId := job))
  }

  /** Each id holds its document and attachments that a further upsert would not change. */
  ghost predicate Holds(t: Table, docs: seq<Document>, ids: seq<nat>) {
    && |ids| == |docs|
    && (forall i, j :: 0 <= i < j < |ids| ==> ids[i] != ids[j])
    && (forall i :: 0 <= i < |ids| ==> HoldsAt(t, docs[i], ids[i]))
  }

  ghost predicate HoldsAt(t: Table, d: Document, id: nat) {
    && id in t.rows && t.rows[id].content == Payload(d)
    && UpsertAttachments(t.rows[id].attachments, d.attachments) == t.rows[id].attachments
  }

  lemma {:induction false} RewriteHeldRow(t: Table, d: Document, id: nat, job: Option<string>)
    requires Unique(t) && WellFormed(d) && HoldsAt(t, d, id)
    ensures UpsertOne(t, d, job) ==
            Success((Table(t.rows[id := t.rows[id].(syncJobId := job)], t.nextId), id, false))
  {
    assert UrlMatch(t, d, id);
    forall i | IdMatch(t, d, i) || UrlMatch(t, d, i)
      ensures i == id
    {
      assert i != id ==> Clash(t.rows[i].content, t.rows[id].content);
    }
    forall j | j in t.rows && j != id
      ensures !Clash(t.rows[j].content, d)
    {
      assert !Clash(t.rows[j].content, t.rows[id].content);
    }
  }

  lemma {:induction false} OnlyJobKeepsUnique(t: Table, ids: seq<nat>, job: Option<string>, t': Table)
    requires Unique(t) && OnlyJobChanged(t, ids, job, t')
    ensures Unique(t')
  {
    assert forall id :: id in t'.rows ==> id in t.rows && t'.rows[id].content == t.rows[id].content;
  }

  lemma {:induction false} UpsertAllSteps(t: Table, docs: seq<Document>, d: Document, job: Option<string>, o: Outcome,
                                          p: Outcome)
    requires UpsertAll(t, docs, job) == Success(o)
    requires Advance(o, UpsertOne(o.table, d, job)) == Success(p)
    ensures UpsertAll(t, docs + [d], job) == Success(p)
  {
    assert (docs + [d])[..|docs|] == docs;
  }

  lemma {:induction false} RewriteStep(t: Table, d: Document, ids: seq<nat>, id: nat, job: Option<string>, before: Table)
    returns (t': Table)
    requires Unique(t) && WellFormed(d) && id !in ids && HoldsAt(t, d, id)
    requires OnlyJobChanged(t, ids, job, before)
    ensures UpsertOne(before, d, job) == Success((t', id, false))
    ensures OnlyJobChanged(t, ids + [id], job, t')
  {
    OnlyJobKeepsUnique(t, ids, job, before);
    RewriteHeldRow(before, d, id, job);
    t' := before.(rows := before.rows[id := before.rows[id].(syncJobId := job)]);
  }

  lemma {:induction false} RewriteLast(t: Table, docs: seq<Document>, ids: seq<nat>, job: Option<string>, before: Table)
    returns (t': Table)
    requires Unique(t) && docs != [] && |ids| == |docs| && WellFormed(docs[|docs| - 1])
    requires ids[|docs| - 1] !in ids[..|docs| - 1] && HoldsAt(t, docs[|docs| - 1], ids[|docs| - 1])
    requires UpsertAll(t, docs[..|docs| - 1], job) == Success(Outcome(before, ids[..|docs| - 1], 0, |docs| - 1))
    requires OnlyJobChanged(t, ids[..|docs| - 1], job, before)
    ensures UpsertAll(t, docs, job) == Success(Outcome(t', ids, 0, |docs|))
    ensures OnlyJobChanged(t, ids, job, t')
  {
    hide UpsertOne, HoldsAt, OnlyJobChanged, Unique, WellFormed;
    var n := |docs| - 1;
    t' := RewriteStep(t, docs[n], ids[..n], ids[n], job, before);
    assert ids == ids[..n] + [ids[n]];
  }

  lemma {:induction false} HoldsSplit(t: Table, docs: seq<Document>, ids: seq<nat>, n: nat)
    requires Holds(t, docs, ids) && n < |docs|
    ensures Holds(t, docs[..n], ids[..n])
    ensures |ids| == |docs| && HoldsAt(t, docs[n], ids[n]) && ids[n] !in ids[..n]
  {
  }

  lemma {:induction false} RewriteAll(t: Table, docs: seq<Document>, ids: seq<nat>, job: Option<string>)
    returns (t': Table)
    requires Unique(t) && Holds(t, docs, ids)
    requires forall i :: 0 <= i < |docs| ==> WellFormed(docs[i])
    ensures UpsertAll(t, docs, job) == Success(Outcome(t', ids, 0, |docs|))
    ensures OnlyJobChanged(t, ids, job, t')
  {
    if docs == [] {
      t' := t;
      assert ids == [];
    } else {
      var n := |docs| - 1;
      hide *;
      HoldsSplit(t, docs, ids, n);
      var initDocs, initIds := docs[..n], ids[..n];
      assert docs[n] == docs[|docs| - 1] && WellFormed(docs[n]);
      assert forall i :: 0 <= i < |initDocs| ==> initDocs[i] == docs[i];
      var before := RewriteAll(t, initDocs, initIds, job);
      t' := RewriteLast(t, docs, ids, job, before);
    }
  }

  /** After a batch each row holds its document, and its attachments would not change again. */
  lemma {:induction false} WrittenIsHeld(t: Table, docs: seq<Document>, job: Option<string>, o: Outcome)
    requires Wrote(t, docs, job, o)
    ensures Holds(o.table, docs, o.ids)
  {
    hide UpsertAttachments;
    forall i | 0 <= i < |docs|
      ensures HoldsAt(o.table, docs[i], o.ids[i])
    {
      var id := o.ids[i];
      AttachmentsUpsertIsIdempotent(if id in t.rows then t.rows[id].attachments else [], docs[i].attachments);
    }
  }

  /** A second identical run inserts no row and no attachment and changes nothing but the
      job id of the rows it visits. */
  lemma {:induction false} SecondRunChangesOnlyJob(t: Table, docs: seq<Document>, job: Option<string>, job': Option<string>)
    requires Unique(t) && Batch(docs) && !SomeTorn(t, docs)
    ensures UpsertAll(t, docs, job).Success?
    ensures var first := UpsertAll(t, docs, job).value;
      && UpsertAll(first.table, docs, job').Success?
      && var second := UpsertAll(first.table, docs, job').value;
         && second.ids == first.ids && second.inserted == 0 && second.updated == |docs|
         && OnlyJobChanged(first.table, first.ids, job', second.table)
  {
    BatchIsWritten(t, docs, job);
    var first := UpsertAll(t, docs, job).value;
    assert forall i :: 0 <= i < |docs| ==> WellFormed(docs[i]);
    hide *;
    WrittenIsHeld(t, docs, job, first);
    var t' := RewriteAll(first.table, docs, first.ids, job');
  }

  /** The row is of the same source and has the document's id, which is not empty. */
  predicate HasIdOf(row: Row, d: Document) {
    && row.content.source == d.source && row.content.sourceDocumentId == d.sourceDocumentId
    && d.sourceDocumentId.Some? && d.sourceDocumentId.value != ""
  }

  predicate HasUrlOf(row: Row, d: Document) {
    row.content.source == d.source && row.content.urlHash == d.urlHash
  }

  /** The row an upsert finds, in the rows' own fields. */
  lemma {:induction false} ExistingRow(t: Table, d: Document)
    requires Unique(t)
    ensures var id := Existing(t, d);
            && (id.Some? ==> id.value in t.rows && (HasIdOf(t.rows[id.value], d) || HasUrlOf(t.rows[id.value], d)))
            && (forall i :: i in t.rows && HasIdOf(t.rows[i], d) ==> id == Some(i))
            && (forall i :: i in t.rows && HasUrlOf(t.rows[i], d) ==> id == Some(i) || (id.Some? && HasIdOf(t.rows[id.value], d)))
  {
    var id := Existing(t, d);
    forall i | i in t.rows && HasIdOf(t.rows[i], d)
      ensures id == Some(i)
    {
      assert IdMatch(t, d, i);
      assert i != id.value ==> !Clash(t.rows[i].content, t.rows[id.value].content);
    }
    forall i | i in t.rows && HasUrlOf(t.rows[i], d)
      ensures id == Some(i) || (id.Some? && HasIdOf(t.rows[id.value], d))
    {
      assert UrlMatch(t, d, i);
      assert i != id.value ==> !Clash(t.rows[i].content, t.rows[id.value].content);
    }
  }

  /** Rejection in the rows' own fields: one row has the document's id, another one its URL. */
  lemma {:induction false} FailsIffTwoRows(t: Table, d: Document, job: Option<string>)
    requires Unique(t) && WellFormed(d)
    ensures UpsertOne(t, d, job).Failure?
       <==> exists i, j :: i in t.rows && j in t.rows && i != j && HasIdOf(t.rows[i], d) && HasUrlOf(t.rows[j], d)
  {
    UpsertFailsIffCrossMatched(t, d, job);
    assert forall i :: i in t.rows ==> (HasIdOf(t.rows[i], d) <==> IdMatch(t, d, i)) && (HasUrlOf(t.rows[i], d) <==> UrlMatch(t, d, i));
  }

  // ---- the program ---------------------------------------------------------------------------------

  class PolicyRepository {
    var rows: map<nat, Row>
    var nextId: nat

    ghost function Contents(): Table
      reads this
    {
      Table(rows, nextId)
    }

    constructor ()
      ensures Contents() == Table(map[], 0) && Unique(Contents())
    {
      rows := map[];
      nextId := 0;
    }

    /** `_load_existing_policy_document`: by source id first, then by URL. */
    method LoadExistingPolicyDocument(d: Document) returns (id: Option<nat>)
      requires Unique(Contents())
      ensures id == Existing(Contents(), d)
      ensures id.Some? ==> id.value in rows && (HasIdOf(rows[id.value], d) || HasUrlOf(rows[id.value], d))
      ensures forall i :: i in rows && HasIdOf(rows[i], d) ==> id == Some(i)
      ensures forall i :: i in rows && HasUrlOf(rows[i], d) ==> id == Some(i) || (id.Some? && HasIdOf(rows[id.value], d))
    {
      ExistingRow(Contents(), d);
      if Truthy(d.sourceDocumentId) {
        var byId := set i | i in rows && SameId(rows[i].content, d);
        if byId != {} {
          var i :| i in byId;
          assert IdMatch(Contents(), d, i);
          ghost var e := Existing(Contents(), d).value;
          assert i != e ==> Clash(rows[i].content, rows[e].content);
          return Some(i);
        }
        assert forall i :: IdMatch(Contents(), d, i) ==> i in byId;
      }
      var byUrl := set i | i in rows && SameUrl(rows[i].content, d);
      if byUrl != {} {
        var i :| i in byUrl;
        assert UrlMatch(Contents(), d, i);
        ghost var e := Existing(Contents(), d).value;
        assert i != e ==> Clash(rows[i].content, rows[e].content);
        return Some(i);
      }
      assert forall i :: UrlMatch(Contents(), d, i) ==> i in byUrl;
      return None;
    }

    method UpsertPolicyAttachments(existing: seq<Attachment>, attachments: seq<Attachment>) returns (r: seq<Attachment>)
      ensures r == UpsertAttachments(existing, attachments)
      ensures exists at :: Stored(existing, attachments, r, at)
    {
      var existingByHash: map<string, nat> := map[];
      for i := 0 to |existing|
        invariant existingByHash == IndexAttachments(existing[..i])
      {
        assert existing[..i + 1][..i] == existing[..i];
        existingByHash := existingByHash[AttachmentKey(existing[i]) := i];
      }
      assert existing[..|existing|] == existing;
      r := existing;
      for i := 0 to |attachments|
        invariant |r| >= |existing| && Addresses(existingByHash, |existing|)
        invariant r == ApplyAttachments(existing, existingByHash, attachments[..i])
      {
        assert attachments[..i + 1][..i] == attachments[..i];
        var key := AttachmentKey(attachments[i]);
        if key in existingByHash {
          r := r[existingByHash[key] := attachments[i]];
        } else {
          r := r + [attachments[i]];
        }
      }
      assert attachments[..|attachments|] == attachments;
      ghost var at := AttachmentsAreStored(existing, attachments);
    }

    /** Writes one document, or reports the constraint the flush would report. */
    method WriteDocument(d: Document, job: Option<string>) returns (r: Result<(nat, bool), UpsertError>)
      requires Unique(Contents())
      modifies this
      ensures r.Failure? <==> UpsertOne(old(Contents()), d, job).Failure?
      ensures r.Failure? ==> Contents() == old(Contents())
      ensures r.Success? ==> UpsertOne(old(Contents()), d, job) == Success((Contents(), r.value.0, r.value.1))
      ensures Unique(Contents())
      ensures r.Success? ==> r.value.0 in rows && Carries(rows[r.value.0], d, job) && rows == old(rows)[r.value.0 := rows[r.value.0]]
    {
      hide Existing, UpsertOne, Payload, UpsertAttachments, Clash, Unique, HasIdOf, HasUrlOf, LastOfFile, OnFile, Stored, Carries;
      var existing := LoadExistingPolicyDocument(d);
      var id := existing.GetOr(nextId);
      UpsertOneIs(Contents(), d, job);
      var clashing := set j | j in rows && j != id && Clash(rows[j].content, d);
      if clashing != {} {
        ghost var j :| j in clashing;
        return Failure(IntegrityError);
      }
      assert forall j :: j in rows && j != id && Clash(rows[j].content, d) ==> j in clashing;
      var before := if id in rows then rows[id].attachments else [];
      var attachments := UpsertPolicyAttachments(before, d.attachments);
      rows := rows[id := Row(Payload(d), job, attachments)];
      nextId := Max(nextId, id + 1);
      UpsertKeepsUnique(old(Contents()), d, job);
      OneCarried(old(Contents()), d, job);
      return Success((id, existing.None?));
    }

    method UpsertPolicyDocuments(documents: seq<Document>, job: Option<string>)
      returns (r: Result<(seq<nat>, nat, nat), UpsertError>)
      requires Unique(Contents())
      modifies this
      ensures r.Failure? <==> UpsertAll(old(Contents()), documents, job).Failure?
      ensures r.Failure? ==> Contents() == old(Contents())
      ensures r.Success? ==> UpsertAll(old(Contents()), documents, job)
                             == Success(Outcome(Contents(), r.value.0, r.value.1, r.value.2))
      ensures Unique(Contents())
      ensures r.Success? ==> Carried(old(Contents()), documents, job, Contents(), r.value.0)
    {
      hide UpsertAll, UpsertOne, Unique, WellFormed;
      ghost var before := Contents();
      assert documents[..0] == [] && UpsertAll(before, [], job) == Success(Outcome(before, [], 0, 0)) by { UpsertNone(before, job); }
      var oldRows, oldNextId := rows, nextId;
      var persisted: seq<nat>, inserted, updated := [], 0, 0;
      for i := 0 to |documents|
        invariant Unique(Contents())
        invariant UpsertAll(before, documents[..i], job)
                  == Success(Outcome(Contents(), persisted, inserted, updated))
      {
        ghost var o := Outcome(Contents(), persisted, inserted, updated);
        assert documents[..i + 1] == documents[..i] + [documents[i]];
        var written := WriteDocument(documents[i], job);
        if written.Failure? {
          UpsertAllFails(before, documents[..i], documents[i], job, o);
          FailureSticks(before, documents, i + 1, job);
          // The failed flush rolls the whole transaction back.
          rows, nextId := oldRows, oldNextId;
          return Failure(written.error);
        }
        persisted := persisted + [written.value.0];
        if written.value.1 {
          inserted := inserted + 1;
        } else {
          updated := updated + 1;
        }
        UpsertAllSteps(before, documents[..i], documents[i], job, o, Outcome(Contents(), persisted, inserted, updated));
      }
      assert documents[..|documents|] == documents;
      BatchIsCarried(before, documents, job);
      return Success((persisted, inserted, updated));
    }
  }

  lemma {:induction false} UpsertNone(t: Table, job: Option<string>)
    ensures UpsertAll(t, [], job) == Success(Outcome(t, [], 0, 0))
  {
  }

  lemma {:induction false} UpsertAllFails(t: Table, docs: seq<Document>, d: Document, job: Option<string>, o: Outcome)
    requires UpsertAll(t, docs, job) == Success(o) && UpsertOne(o.table, d, job).Failure?
    ensures UpsertAll(t, docs + [d], job).Failure?
  {
    assert (docs + [d])[..|docs|] == docs;
  }

  lemma {:induction false} FailureSticks(t: Table, docs: seq<Document>, n: nat, job: Option<string>)
    requires n <= |docs| && UpsertAll(t, docs[..n], job).Failure?
    ensures UpsertAll(t, docs, job).Failure?
    decreases |docs|
  {
    if n < |docs| {
      var init := docs[..|docs| - 1];
      assert init[..n] == docs[..n];
      FailureSticks(t, init, n, job);
    } else {
      assert docs[..n] == docs;
    }
  }
}
