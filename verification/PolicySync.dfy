/** The provider loop of policy_sync_service.py and the composition of dedup with upsert. */
module PolicySync {
  import opened Wrappers
  import opened Sequences
  import opened PolicyDocuments
  import opened PolicyDedup
  import opened PolicyProvenance
  import opened PolicyLinkage
  import opened PolicyIdempotence
  import opened PolicyStore

  /** What a provider delivers: nothing, or seeds; a None seed is one normalisation rejects. */
  datatype Fetch = FetchFailed | Fetched(seeds: seq<Option<Document>>)

  datatype JobStatus = JobSuccess | JobPartial | JobFailed

  datatype Metrics = Metrics(rawCount: nat, normalizedCount: nat, inserted: nat, updated: nat, deduped: nat,
                             failedProviders: nat, successfulProviders: nat, status: JobStatus, documentIds: seq<nat>)

  function Limited(seeds: seq<Option<Document>>, maxItems: int): seq<Option<Document>> {
    if maxItems <= 0 then [] else if maxItems <= |seeds| then seeds[..maxItems] else seeds
  }

  /** The documents normalised before the first rejected seed. */
  function Normalized(seeds: seq<Option<Document>>): seq<Document> {
    if seeds == [] || seeds[0].None? then [] else [seeds[0].value] + Normalized(seeds[1..])
  }

  function Delivered(fetch: Fetch, maxItems: int): seq<Document> {
    if fetch.FetchFailed? then [] else Normalized(Limited(fetch.seeds, maxItems))
  }

  /** A provider succeeds when it answers and none of its seeds is rejected. */
  predicate Succeeds(fetch: Fetch, maxItems: int) {
    fetch.Fetched? && |Delivered(fetch, maxItems)| == |Limited(fetch.seeds, maxItems)|
  }

  function AllDelivered(providers: seq<Fetch>, maxItems: int): seq<Document> {
    if providers == [] then []
    else AllDelivered(providers[..|providers| - 1], maxItems) + Delivered(providers[|providers| - 1], maxItems)
  }

  /** Documents a failed provider left in the list, which `normalized_count` does not count. */
  function Orphans(providers: seq<Fetch>, maxItems: int): nat {
    if providers == [] then 0
    else
      var last := providers[|providers| - 1];
      Orphans(providers[..|providers| - 1], maxItems)
      + (if Succeeds(last, maxItems) then 0 else |Delivered(last, maxItems)|)
  }

  /** Every seed taken from a provider that answered counts, rejected or not. */
  function RawCount(providers: seq<Fetch>, maxItems: int): nat {
    if providers == [] then 0
    else
      var last := providers[|providers| - 1];
      RawCount(providers[..|providers| - 1], maxItems) + (if last.Fetched? then |Limited(last.seeds, maxItems)| else 0)
  }

  /** The documents of the providers that succeed. */
  function NormalizedCount(providers: seq<Fetch>, maxItems: int): nat {
    if providers == [] then 0
    else
      var last := providers[|providers| - 1];
      NormalizedCount(providers[..|providers| - 1], maxItems)
      + (if Succeeds(last, maxItems) then |Delivered(last, maxItems)| else 0)
  }

  function Successes(providers: seq<Fetch>, maxItems: int): nat {
    if providers == [] then 0
    else
      Successes(providers[..|providers| - 1], maxItems)
      + (if Succeeds(providers[|providers| - 1], maxItems) then 1 else 0)
  }

  lemma {:induction false} NoFailureNoOrphans(providers: seq<Fetch>, maxItems: int)
    ensures Successes(providers, maxItems) <= |providers|
    ensures Successes(providers, maxItems) == |providers| ==> Orphans(providers, maxItems) == 0
  {
    if providers != [] {
      NoFailureNoOrphans(providers[..|providers| - 1], maxItems);
    }
  }

  lemma {:induction false} NormalizedFrom(seeds: seq<Option<Document>>, i: nat)
    requires i <= |seeds|
    ensures i == |seeds| ==> Normalized(seeds[i..]) == []
    ensures i < |seeds| ==>
              Normalized(seeds[i..]) == if seeds[i].None? then [] else [seeds[i].value] + Normalized(seeds[i + 1..])
  {
    if i < |seeds| {
      assert seeds[i..][0] == seeds[i] && seeds[i..][1..] == seeds[i + 1..];
    }
  }

  /** How many seeds of an answer are looked at. */
  function Asked(seeds: seq<Option<Document>>, maxItems: int): nat {
    if maxItems < 0 then 0 else if |seeds| < maxItems then |seeds| else maxItems
  }

  /** A provider delivers the documents of its first seeds, in order: as many as are asked for, or
      up to the first that normalisation rejects. */
  lemma {:induction false} DeliveredSeeds(fetch: Fetch, maxItems: int)
    ensures fetch.FetchFailed? ==> Delivered(fetch, maxItems) == []
    ensures fetch.Fetched? ==> var d, n := Delivered(fetch, maxItems), Asked(fetch.seeds, maxItems);
      && |d| <= n && (forall k :: 0 <= k < |d| ==> fetch.seeds[k] == Some(d[k])) && (|d| < n ==> fetch.seeds[|d|].None?)
    ensures Succeeds(fetch, maxItems) <==>
      fetch.Fetched? && forall k :: 0 <= k < Asked(fetch.seeds, maxItems) ==> fetch.seeds[k].Some?
  {
    if fetch.Fetched? {
      NormalizedSeeds(Limited(fetch.seeds, maxItems));
    }
  }

  lemma {:induction false} NormalizedSeeds(seeds: seq<Option<Document>>)
    ensures var d := Normalized(seeds);
      && |d| <= |seeds| && (forall k :: 0 <= k < |d| ==> seeds[k] == Some(d[k])) && (|d| < |seeds| ==> seeds[|d|].None?)
  {
    if seeds != [] && seeds[0].Some? {
      NormalizedSeeds(seeds[1..]);
    }
  }

  /** What one provider adds to the documents and to the counters of the sync. */
  lemma {:induction false} OneProvider(fetch: Fetch, maxItems: int)
    ensures AllDelivered([fetch], maxItems) == Delivered(fetch, maxItems)
    ensures RawCount([fetch], maxItems) == if fetch.Fetched? then Asked(fetch.seeds, maxItems) else 0
    ensures NormalizedCount([fetch], maxItems) == if Succeeds(fetch, maxItems) then |Delivered(fetch, maxItems)| else 0
    ensures Successes([fetch], maxItems) == if Succeeds(fetch, maxItems) then 1 else 0
  {
    assert [fetch][..0] == [];
    assert AllDelivered([], maxItems) == [] && RawCount([], maxItems) == 0;
  }

  /** The documents of two lists of providers are those of the first and then those of the second,
      and the counters add up. */
  lemma {:induction false} ProvidersAddUp(first: seq<Fetch>, second: seq<Fetch>, maxItems: int)
    ensures AllDelivered(first + second, maxItems) == AllDelivered(first, maxItems) + AllDelivered(second, maxItems)
    ensures RawCount(first + second, maxItems) == RawCount(first, maxItems) + RawCount(second, maxItems)
    ensures NormalizedCount(first + second, maxItems) == NormalizedCount(first, maxItems) + NormalizedCount(second, maxItems)
    ensures Successes(first + second, maxItems) == Successes(first, maxItems) + Successes(second, maxItems)
    decreases |second|
  {
    hide *;
    if second == [] {
      assert first + second == first;
      NoProviders(maxItems);
    } else {
      var init, last := second[..|second| - 1], second[|second| - 1];
      ProvidersAddUp(first, init, maxItems);
      ProvidersNext(init, last, maxItems);
      ProvidersNext(first + init, last, maxItems);
      assert init + [last] == second && first + init + [last] == first + second;
      assert AllDelivered(first + second, maxItems) == AllDelivered(first + init, maxItems) + Delivered(last, maxItems);
    }
  }

  lemma {:induction false} NoProviders(maxItems: int)
    ensures AllDelivered([], maxItems) == [] && RawCount([], maxItems) == 0 && NormalizedCount([], maxItems) == 0 && Successes([], maxItems) == 0
  {
  }

  lemma {:induction false} ProvidersNext(init: seq<Fetch>, last: Fetch, maxItems: int)
    ensures AllDelivered(init + [last], maxItems) == AllDelivered(init, maxItems) + Delivered(last, maxItems)
    ensures RawCount(init + [last], maxItems) == RawCount(init, maxItems) + if last.Fetched? then |Limited(last.seeds, maxItems)| else 0
    ensures NormalizedCount(init + [last], maxItems)
            == NormalizedCount(init, maxItems) + if Succeeds(last, maxItems) then |Delivered(last, maxItems)| else 0
    ensures Successes(init + [last], maxItems) == Successes(init, maxItems) + if Succeeds(last, maxItems) then 1 else 0
  {
    hide Succeeds, Delivered, Limited;
    assert (init + [last])[..|init + [last]| - 1] == init;
  }

  method NormalizeSeeds(seeds: seq<Option<Document>>) returns (documents: seq<Document>, complete: bool)
    ensures documents == Normalized(seeds)
    ensures complete <==> |documents| == |seeds|
  {
    hide Normalized;
    documents := [];
    assert seeds[0..] == seeds;
    for i := 0 to |seeds|
      invariant |documents| == i && Normalized(seeds) == documents + Normalized(seeds[i..])
    {
      NormalizedFrom(seeds, i);
      if seeds[i].None? {
        return documents, false;
      }
      documents := documents + [seeds[i].value];
    }
    NormalizedFrom(seeds, |seeds|);
    complete := true;
  }

  method CollectDocuments(providers: seq<Fetch>, maxItems: int)
    returns (documents: seq<Document>, rawCount: nat, normalizedCount: nat, failed: nat, successful: nat)
    ensures documents == AllDelivered(providers, maxItems)
    ensures |documents| == normalizedCount + Orphans(providers, maxItems)
    ensures successful == Successes(providers, maxItems) && failed + successful == |providers|
    ensures normalizedCount == NormalizedCount(providers, maxItems) <= rawCount == RawCount(providers, maxItems)
  {
    documents, rawCount, normalizedCount, failed, successful := [], 0, 0, 0, 0;
    for i := 0 to |providers|
      invariant documents == AllDelivered(providers[..i], maxItems)
      invariant |documents| == normalizedCount + Orphans(providers[..i], maxItems)
      invariant successful == Successes(providers[..i], maxItems) && failed + successful == i
      invariant normalizedCount == NormalizedCount(providers[..i], maxItems) <= rawCount == RawCount(providers[..i], maxItems)
    {
      assert providers[..i + 1][..i] == providers[..i];
      if providers[i].FetchFailed? {
        failed := failed + 1;
      } else {
        var limited := Limited(providers[i].seeds, maxItems);
        rawCount := rawCount + |limited|;
        var normalized, complete := NormalizeSeeds(limited);
        documents := documents + normalized;
        if complete {
          normalizedCount := normalizedCount + |normalized|;
          successful := successful + 1;
        } else {
          failed := failed + 1;
        }
      }
    }
    assert providers[..|providers|] == providers;
  }

  lemma {:induction false} UpsertCounts(t: Table, docs: seq<Document>, job: Option<string>)
    requires UpsertAll(t, docs, job).Success?
    ensures var o := UpsertAll(t, docs, job).value;
      |o.ids| == |docs| && o.inserted + o.updated == |docs|
  {
    hide UpsertOne;
    if docs != [] {
      UpsertCounts(t, docs[..|docs| - 1], job);
    }
  }

  /** Where every collected document went. */
  ghost predicate Accounted(m: Metrics, collected: seq<Document>, orphans: nat) {
    && m.inserted + m.updated == |Survivors(collected)|
    && m.deduped == Run(collected).dedupedCount
    && m.inserted + m.updated + m.deduped + Vacated(Run(collected).slots) == m.normalizedCount + orphans
  }

  method SyncPolicyDocuments(repository: PolicyRepository, providers: seq<Fetch>, maxItems: int,
                             enabled: bool, forceRefresh: bool, job: Option<string>)
    returns (r: Result<Metrics, UpsertError>)
    requires Unique(repository.Contents())
    modifies repository
    ensures Unique(repository.Contents())
    ensures !enabled && !forceRefresh ==>
              repository.Contents() == old(repository.Contents())
              && r == Success(Metrics(0, 0, 0, 0, 0, 0, 0, JobSuccess, []))
    ensures enabled || forceRefresh ==>
              (r.Failure? <==> UpsertAll(old(repository.Contents()), Survivors(AllDelivered(providers, maxItems)), job).Failure?)
    ensures r.Failure? ==> repository.Contents() == old(repository.Contents())
    ensures (enabled || forceRefresh) && r.Success? ==>
              && Accounted(r.value, AllDelivered(providers, maxItems), Orphans(providers, maxItems))
              && r.value.rawCount == RawCount(providers, maxItems)
              && r.value.normalizedCount == NormalizedCount(providers, maxItems)
              && r.value.successfulProviders == Successes(providers, maxItems)
              && r.value.failedProviders + r.value.successfulProviders == |providers|
              && UpsertAll(old(repository.Contents()), Survivors(AllDelivered(providers, maxItems)), job)
                 == Success(Outcome(repository.Contents(), r.value.documentIds, r.value.inserted, r.value.updated))
              && (r.value.status == JobSuccess <==> r.value.failedProviders == 0)
              && (r.value.status == JobFailed <==>
                    providers != [] && r.value.successfulProviders == 0 && Survivors(AllDelivered(providers, maxItems)) == [])
  {
    hide Survivors, Run, UpsertAll, Unique, Vacated;
    if !enabled && !forceRefresh {
      return Success(Metrics(0, 0, 0, 0, 0, 0, 0, JobSuccess, []));
    }
    var collected, rawCount, normalizedCount, failed, successful := CollectDocuments(providers, maxItems);
    var documents, dedupedCount := DedupePolicyDocuments(collected);
    var upserted := repository.UpsertPolicyDocuments(documents, job);
    if upserted.Failure? {
      return Failure(upserted.error);
    }
    Conservation(collected);
    UpsertCounts(old(repository.Contents()), documents, job);
    var status := JobSuccess;
    if failed > 0 {
      status := JobPartial;
    }
    if providers != [] && failed == |providers| && documents == [] {
      status := JobFailed;
    }
    return Success(Metrics(rawCount, normalizedCount, upserted.value.1, upserted.value.2, dedupedCount,
                           failed, successful, status, upserted.value.0));
  }

  /** What the sync reports as inserted, updated or deduplicated is at most what it reports as
      normalised. */
  ghost predicate Bounded(providers: seq<Fetch>, maxItems: int) {
    var docs := AllDelivered(providers, maxItems);
    |Survivors(docs)| + Run(docs).dedupedCount <= NormalizedCount(providers, maxItems)
  }

  lemma {:induction false} ReportsBounded(m: Metrics, providers: seq<Fetch>, maxItems: int)
    requires Accounted(m, AllDelivered(providers, maxItems), Orphans(providers, maxItems))
    requires m.normalizedCount == NormalizedCount(providers, maxItems)
    ensures m.inserted + m.updated + m.deduped <= m.normalizedCount <==> Bounded(providers, maxItems)
  {
    hide Run, Survivors, Vacated;
  }

  lemma {:induction false} DeliveredCount(providers: seq<Fetch>, maxItems: int)
    ensures |AllDelivered(providers, maxItems)| == NormalizedCount(providers, maxItems) + Orphans(providers, maxItems)
  {
    if providers != [] {
      DeliveredCount(providers[..|providers| - 1], maxItems);
    }
  }

  /** The counters stay within `normalized_count` exactly when the slots left vacated make up
      for the documents of providers that failed half-way; in particular when none failed. */
  lemma {:induction false} CountersBounded(providers: seq<Fetch>, maxItems: int)
    ensures Bounded(providers, maxItems)
       <==> Orphans(providers, maxItems) <= Vacated(Run(AllDelivered(providers, maxItems)).slots)
    ensures Successes(providers, maxItems) == |providers| ==> Bounded(providers, maxItems)
  {
    hide Run, Survivors, Vacated;
    NoFailureNoOrphans(providers, maxItems);
    DeliveredCount(providers, maxItems);
    Conservation(AllDelivered(providers, maxItems));
  }

  lemma {:induction false} NoneVacated(slots: seq<Option<Tree>>)
    requires forall i :: 0 <= i < |slots| ==> slots[i].Some?
    ensures Vacated(slots) == 0
  {
    if slots != [] {
      NoneVacated(slots[..|slots| - 1]);
    }
  }

  /** Where no two delivered documents share a key, the bound holds if and only if no provider
      that fails has delivered a document before. */
  lemma {:induction false} DisjointBoundedIff(providers: seq<Fetch>, maxItems: int)
    requires KeyDisjoint(AllDelivered(providers, maxItems))
    ensures Bounded(providers, maxItems)
       <==> forall i :: 0 <= i < |providers| && !Succeeds(providers[i], maxItems) ==> Delivered(providers[i], maxItems) == []
  {
    var docs := AllDelivered(providers, maxItems);
    hide KeyDisjoint, Run, AllDelivered, Succeeds, Delivered, Bounded;
    FoldsNothing(docs);
    NoneVacated(Run(docs).slots);
    CountersBounded(providers, maxItems);
    NoOrphansIff(providers, maxItems);
  }

  lemma {:induction false} NoOrphansIff(providers: seq<Fetch>, maxItems: int)
    ensures Orphans(providers, maxItems) == 0
       <==> forall i :: 0 <= i < |providers| && !Succeeds(providers[i], maxItems) ==> Delivered(providers[i], maxItems) == []
  {
    if providers != [] {
      var init, last := providers[..|providers| - 1], providers[|providers| - 1];
      NoOrphansIff(init, maxItems);
      assert providers == init + [last];
      hide Succeeds, Delivered;
      assert forall i :: 0 <= i < |init| ==> providers[i] == init[i];
    }
  }

  /** The failing input: one provider, one document, then a seed that normalisation rejects. One
      row is inserted and none counts as normalised. */
  lemma {:induction false} HalfFailureOvercounts(d: Document, maxItems: int)
    requires maxItems >= 2
    ensures var providers := [Fetched([Some(d), None])];
      && NormalizedCount(providers, maxItems) == 0 && Survivors(AllDelivered(providers, maxItems)) == [d]
      && !Bounded(providers, maxItems)
  {
    var fetch := Fetched([Some(d), None]);
    var providers := [fetch];
    assert providers[..0] == [] && Limited(fetch.seeds, maxItems) == fetch.seeds;
    assert fetch.seeds[1..] == [None] && Normalized(fetch.seeds[1..]) == [];
    assert Delivered(fetch, maxItems) == [d] && !Succeeds(fetch, maxItems);
    assert AllDelivered([], maxItems) == [] && AllDelivered(providers, maxItems) == [] + [d] == [d];
    assert NormalizedCount(providers, maxItems) == 0;
    OneSurvives(d);
  }

  lemma {:induction false} OneSurvives(d: Document)
    ensures Survivors([d]) == [d] && Run([d]).dedupedCount == 0
  {
    FoldsNothing([d]);
    LiveOfOpened([d], Run([d]).slots);
    hide Run;
    SortOfDescending([d], SortKey);
  }

  // ---- dedup output is a batch the writer accepts ------------------------------------------------

  lemma {:induction false} HistoryWellFormed(docs: seq<Document>, t: Tree)
    requires Faithful(docs, t) && forall i :: 0 <= i < |docs| ==> WellFormed(docs[i])
    ensures WellFormed(Eval(t))
  {
    match t
    case Leaf(_, _) =>
    case Node(left, right) =>
      HistoryWellFormed(docs, left);
      HistoryWellFormed(docs, right);
  }

  lemma {:induction false} SurvivorsAreABatch(docs: seq<Document>)
    requires NoMinting(docs) && forall i :: 0 <= i < |docs| ==> WellFormed(docs[i])
    ensures Batch(Survivors(docs))
  {
    hide KeySet;
    SurvivorsAreKeyDisjoint(docs);
    forall i | 0 <= i < |Survivors(docs)|
      ensures WellFormed(Survivors(docs)[i])
    {
      var slot := SurvivorHasSlot(docs, Survivors(docs)[i]);
      HistoryWellFormed(docs, Run(docs).slots[slot].value);
    }
  }

  /** Deduplicating and writing violates a constraint if and only if a survivor is torn between two
      stored rows no earlier one has met; otherwise doing it twice on the same input inserts nothing
      the second time. */
  lemma {:induction false} SyncTwice(t: Table, docs: seq<Document>, job: Option<string>, job': Option<string>)
    requires Unique(t) && NoMinting(docs) && forall i :: 0 <= i < |docs| ==> WellFormed(docs[i])
    ensures UpsertAll(t, Survivors(docs), job).Failure? <==> SomeTorn(t, Survivors(docs))
    ensures UpsertAll(t, Survivors(docs), job).Success? ==> var first := UpsertAll(t, Survivors(docs), job).value;
      && Wrote(t, Survivors(docs), job, first) && Unique(first.table)
      && UpsertAll(first.table, Survivors(docs), job').Success?
      && var second := UpsertAll(first.table, Survivors(docs), job').value;
         && second.inserted == 0 && second.ids == first.ids
         && OnlyJobChanged(first.table, first.ids, job', second.table)
  {
    hide Survivors, UpsertAll, SomeTorn, Wrote, Unique, OnlyJobChanged, Batch;
    SurvivorsAreABatch(docs);
    BatchFailsIff(t, Survivors(docs), job);
    if !SomeTorn(t, Survivors(docs)) {
      BatchIsWritten(t, Survivors(docs), job);
      SecondRunChangesOnlyJob(t, Survivors(docs), job, job');
    }
  }
}
