/** What the event selection does, in the events' own fields: which of two duplicates is kept, which
    of two candidates is preferred, and in which order the result is filled. */
module EventMeaning {
  import opened Wrappers
  import opened Sequences
  import opened EventSelection
  import opened EventSelectionLaws

  // ---- duplicates -----------------------------------------------------------------------------

  /** The same cluster; without one on either side the same scope, stock, title, time and URL. */
  predicate SameStory(x: Event, y: Event) {
    || (x.clusterKey != "" && x.clusterKey == y.clusterKey)
    || (x.clusterKey == "" && y.clusterKey == "" && x.scope == y.scope && x.tsCode == y.tsCode && x.title == y.title
        && x.publishedAt == y.publishedAt && x.url == y.url)
  }

  lemma {:induction false} SameStoryIff(x: Event, y: Event)
    ensures SameStory(x, y) <==> KeyOf(x) == KeyOf(y)
  {
  }

  /** Event j is not the anchor, not its story, and no earlier one but the anchor is of its story. */
  ghost predicate IsNews(events: seq<Event>, anchorId: Option<int>, anchor: Option<Event>, j: nat)
    requires j < |events|
  {
    && anchorId != Some(events[j].id)
    && (anchor.Some? ==> !SameStory(anchor.value, events[j]))
    && forall i :: 0 <= i < j && anchorId != Some(events[i].id) ==> !SameStory(events[i], events[j])
  }

  /** Of the first n events: the anchor, then in order, at the positions `at`, those that are news. */
  ghost predicate KeptAt(events: seq<Event>, anchorId: Option<int>, anchor: Option<Event>, n: nat, kept: seq<Event>, at: seq<nat>)
    requires n <= |events|
  {
    && Listed(anchor) <= kept && |kept| == |Listed(anchor)| + |at|
    && (forall i, j :: 0 <= i < j < |at| ==> at[i] < at[j])
    && (forall i :: 0 <= i < |at| ==> at[i] < n && kept[|Listed(anchor)| + i] == events[at[i]])
    && (forall j: nat :: j < n ==> (j in at <==> IsNews(events, anchorId, anchor, j)))
  }

  ghost function DistinctSoFar(events: seq<Event>, anchorId: Option<int>, anchor: Option<Event>, n: nat): seq<Event>
    requires n <= |events|
  {
    DistinctBy(Listed(anchor) + Without(events[..n], anchorId), KeyOf)
  }

  ghost predicate Told(events: seq<Event>, anchorId: Option<int>, anchor: Option<Event>, n: nat, k: LogicalKey)
    requires n <= |events|
  {
    || (anchor.Some? && KeyOf(anchor.value) == k)
    || exists i :: 0 <= i < n && anchorId != Some(events[i].id) && KeyOf(events[i]) == k
  }

  lemma {:induction false} ToldSoFar(events: seq<Event>, anchorId: Option<int>, anchor: Option<Event>, n: nat, k: LogicalKey)
    requires n <= |events|
    ensures HasKey(DistinctSoFar(events, anchorId, anchor, n), KeyOf, k) <==> Told(events, anchorId, anchor, n, k)
    decreases n
  {
    hide DistinctSoFar, DistinctBy, KeyOf, HasKey;
    if n == 0 {
      NothingSoFar(events, anchorId, anchor);
      OnlyAnchorTold(anchor, k);
    } else {
      ToldSoFar(events, anchorId, anchor, n - 1, k);
      NextSoFar(events, anchorId, anchor, n - 1);
      HasKeyOfAppended(DistinctSoFar(events, anchorId, anchor, n - 1), events[n - 1], k);
    }
  }

  lemma {:induction false} OnlyAnchorTold(anchor: Option<Event>, k: LogicalKey)
    ensures HasKey(Listed(anchor), KeyOf, k) <==> anchor.Some? && KeyOf(anchor.value) == k
  {
    hide KeyOf;
    if anchor.Some? && KeyOf(anchor.value) == k {
      assert KeyOf(Listed(anchor)[0]) == k;
    }
  }

  lemma {:induction false} IsNewsIff(events: seq<Event>, anchorId: Option<int>, anchor: Option<Event>, j: nat)
    requires j < |events|
    ensures IsNews(events, anchorId, anchor, j)
       <==> anchorId != Some(events[j].id) && !Told(events, anchorId, anchor, j, KeyOf(events[j]))
  {
    hide SameStory, KeyOf;
    if anchor.Some? { SameStoryIff(anchor.value, events[j]); }
    forall i | 0 <= i < j
      ensures SameStory(events[i], events[j]) <==> KeyOf(events[i]) == KeyOf(events[j])
    {
      SameStoryIff(events[i], events[j]);
    }
  }

  lemma {:induction false} KeptSoFar(events: seq<Event>, anchorId: Option<int>, anchor: Option<Event>, n: nat) returns (at: seq<nat>)
    requires n <= |events|
    ensures KeptAt(events, anchorId, anchor, n, DistinctSoFar(events, anchorId, anchor, n), at)
    decreases n
  {
    hide *;
    if n == 0 {
      at := [];
      NothingSoFar(events, anchorId, anchor);
    } else {
      at := KeptSoFar(events, anchorId, anchor, n - 1);
      ToldSoFar(events, anchorId, anchor, n - 1, KeyOf(events[n - 1]));
      NextSoFar(events, anchorId, anchor, n - 1);
      IsNewsIff(events, anchorId, anchor, n - 1);
      if IsNews(events, anchorId, anchor, n - 1) {
        KeepsOne(events, anchorId, anchor, n - 1, DistinctSoFar(events, anchorId, anchor, n - 1), at);
        at := at + [n - 1];
      } else {
        SkipsOne(events, anchorId, anchor, n - 1, DistinctSoFar(events, anchorId, anchor, n - 1), at);
      }
    }
  }

  lemma {:induction false} NothingSoFar(events: seq<Event>, anchorId: Option<int>, anchor: Option<Event>)
    ensures DistinctSoFar(events, anchorId, anchor, 0) == Listed(anchor)
    ensures KeptAt(events, anchorId, anchor, 0, Listed(anchor), [])
  {
    assert events[..0] == [];
    AnchorAlone(anchor);
  }

  lemma {:induction false} NextSoFar(events: seq<Event>, anchorId: Option<int>, anchor: Option<Event>, n: nat)
    requires n < |events|
    ensures var earlier := DistinctSoFar(events, anchorId, anchor, n);
            DistinctSoFar(events, anchorId, anchor, n + 1)
            == if anchorId == Some(events[n].id) || HasKey(earlier, KeyOf, KeyOf(events[n])) then earlier else earlier + [events[n]]
  {
    DedupeNext(events, anchorId, anchor, n);
  }

  lemma {:induction false} SkipsOne(events: seq<Event>, anchorId: Option<int>, anchor: Option<Event>, n: nat, kept: seq<Event>, at: seq<nat>)
    requires n < |events| && KeptAt(events, anchorId, anchor, n, kept, at) && !IsNews(events, anchorId, anchor, n)
    ensures KeptAt(events, anchorId, anchor, n + 1, kept, at)
  {
    hide IsNews;
    assert n !in at;
  }

  lemma {:induction false} KeepsOne(events: seq<Event>, anchorId: Option<int>, anchor: Option<Event>, n: nat, kept: seq<Event>, at: seq<nat>)
    requires n < |events| && KeptAt(events, anchorId, anchor, n, kept, at) && IsNews(events, anchorId, anchor, n)
    ensures KeptAt(events, anchorId, anchor, n + 1, kept + [events[n]], at + [n])
  {
    hide IsNews;
    var kept', at' := kept + [events[n]], at + [n];
    assert at'[|at|] == n;
    forall j: nat | j < n + 1
      ensures j in at' <==> IsNews(events, anchorId, anchor, j)
    {
      assert j < n ==> (j in at' <==> j in at);
    }
  }

  /** What deduplication keeps of any list: the anchor first, then the first event of every other
      story in the order given. */
  lemma {:induction false} DedupeKeeps(events: seq<Event>, anchorId: Option<int>) returns (at: seq<nat>)
    ensures KeptAt(events, anchorId, Find(events, anchorId), |events|, Dedupe(events, anchorId), at)
  {
    at := KeptSoFar(events, anchorId, Find(events, anchorId), |events|);
    assert events[..|events|] == events;
  }

  predicate FirstWithId(events: seq<Event>, id: int, i: nat) {
    i < |events| && events[i].id == id && forall j :: 0 <= j < i ==> events[j].id != id
  }

  /** The anchor is the first event with the wanted id. */
  lemma {:induction false} FindIsFirst(events: seq<Event>, anchorId: Option<int>)
    ensures Find(events, anchorId).None? <==> anchorId.None? || forall event :: event in events ==> event.id != anchorId.value
    ensures Find(events, anchorId).Some? ==>
              exists i: nat :: FirstWithId(events, anchorId.value, i) && events[i] == Find(events, anchorId).value
  {
    if events == [] || anchorId.None? {
    } else if events[0].id == anchorId.value {
      assert FirstWithId(events, anchorId.value, 0);
    } else {
      var rest := events[1..];
      assert events == [events[0]] + rest;
      FindIsFirst(rest, anchorId);
      if Find(events, anchorId).Some? {
        var i: nat :| FirstWithId(rest, anchorId.value, i) && rest[i] == Find(events, anchorId).value;
        assert forall j :: 0 < j <= i + 1 ==> events[j] == rest[j - 1];
        assert FirstWithId(events, anchorId.value, i + 1) && events[i + 1] == rest[i];
      }
    }
  }

  // ---- the ranking ------------------------------------------------------------------------------

  predicate OfAnchorStock(anchor: Option<Event>, x: Event) {
    anchor.Some? && anchor.value.tsCode != "" && x.tsCode == anchor.value.tsCode
  }

  predicate OfAnchorTopic(anchor: Option<Event>, x: Event) {
    anchor.Some? && anchor.value.macroTopic != "" && x.macroTopic == anchor.value.macroTopic
  }

  /** A missing time counts as the earliest one. */
  predicate Later(a: Option<nat>, b: Option<nat>) {
    a.Some? && (if b.Some? then a.value > b.value else a.value > 0)
  }

  /** The anchor's stock, then its topic, then the later publication, fetch, creation, the higher
      priority of the source, the greater id. */
  predicate Above(anchor: Option<Event>, x: Event, y: Event) {
    if OfAnchorStock(anchor, x) != OfAnchorStock(anchor, y) then OfAnchorStock(anchor, x)
    else if OfAnchorTopic(anchor, x) != OfAnchorTopic(anchor, y) then OfAnchorTopic(anchor, x)
    else if Later(x.publishedAt, y.publishedAt) || Later(y.publishedAt, x.publishedAt) then Later(x.publishedAt, y.publishedAt)
    else if Later(x.fetchedAt, y.fetchedAt) || Later(y.fetchedAt, x.fetchedAt) then Later(x.fetchedAt, y.fetchedAt)
    else if Later(x.createdAt, y.createdAt) || Later(y.createdAt, x.createdAt) then Later(x.createdAt, y.createdAt)
    else if x.sourcePriority != y.sourcePriority then x.sourcePriority > y.sourcePriority
    else x.id > y.id
  }

  lemma {:induction false} LexAt(a: seq<int>, b: seq<int>, i: nat)
    requires i < |a| == |b|
    ensures LexLess(a[i..], b[i..]) <==> a[i] < b[i] || (a[i] == b[i] && LexLess(a[i + 1..], b[i + 1..]))
  {
    assert a[i..][1..] == a[i + 1..] && b[i..][1..] == b[i + 1..];
  }

  /** Tuples of seven compare at the first place where they differ. */
  predicate LessAt(a: seq<int>, b: seq<int>)
    requires |a| == |b| == 7
  {
    if a[0] != b[0] then a[0] < b[0]
    else if a[1] != b[1] then a[1] < b[1]
    else if a[2] != b[2] then a[2] < b[2]
    else if a[3] != b[3] then a[3] < b[3]
    else if a[4] != b[4] then a[4] < b[4]
    else if a[5] != b[5] then a[5] < b[5]
    else a[6] < b[6]
  }

  lemma {:induction false} LessAtIff(a: seq<int>, b: seq<int>)
    requires |a| == |b| == 7
    ensures LexLess(a, b) <==> LessAt(a, b)
  {
    assert a[0..] == a && b[0..] == b && a[7..] == [] && b[7..] == [];
    assert !LexLess(a[7..], b[7..]);
    hide LexLess;
    LexAt(a, b, 0);
    LexAt(a, b, 1);
    LexAt(a, b, 2);
    LexAt(a, b, 3);
    LexAt(a, b, 4);
    LexAt(a, b, 5);
    LexAt(a, b, 6);
  }

  lemma {:induction false} AboveIff(anchor: Option<Event>, x: Event, y: Event)
    ensures Above(anchor, x, y) <==> LexLess(SortKey(y, anchor), SortKey(x, anchor))
  {
    LessAtIff(SortKey(y, anchor), SortKey(x, anchor));
    KeyParts(anchor, x);
    KeyParts(anchor, y);
    hide LexLess, SortKey, OfAnchorStock, OfAnchorTopic;
  }

  lemma {:induction false} KeyParts(anchor: Option<Event>, x: Event)
    ensures var k := SortKey(x, anchor);
            && |k| == 7 && k[0] == (if OfAnchorStock(anchor, x) then 1 else 0) && k[1] == (if OfAnchorTopic(anchor, x) then 1 else 0)
            && k[2] == x.publishedAt.GetOr(0) && k[3] == x.fetchedAt.GetOr(0) && k[4] == x.createdAt.GetOr(0)
            && k[5] == x.sourcePriority && k[6] == x.id
  {
  }

  /** Different ids: one of the two is preferred. */
  lemma {:induction false} AboveTotal(anchor: Option<Event>, x: Event, y: Event)
    requires x.id != y.id
    ensures Above(anchor, x, y) <==> !LexLess(SortKey(x, anchor), SortKey(y, anchor))
  {
    AboveIff(anchor, x, y);
    hide SortKey, LexLess, Above;
    LexTotal(SortKey(x, anchor), SortKey(y, anchor));
    assert SortKey(x, anchor) != SortKey(y, anchor) by { IdInKey(anchor, x, y); }
  }

  lemma {:induction false} IdInKey(anchor: Option<Event>, x: Event, y: Event)
    requires x.id != y.id
    ensures SortKey(x, anchor) != SortKey(y, anchor)
  {
    assert SortKey(x, anchor)[6] != SortKey(y, anchor)[6];
  }

  lemma {:induction false} DescendsAbove(items: seq<Event>, anchor: Option<Event>, i: nat, j: nat)
    requires Descending(items, Ranking(anchor)) && UniqueIds(items) && i < j < |items|
    ensures Above(anchor, items[i], items[j])
  {
    hide LexLess, Above, SortKey;
    assert !LexLess(Ranking(anchor)(items[i]), Ranking(anchor)(items[j]));
    assert IdOf(items[i]) != IdOf(items[j]);
    AboveTotal(anchor, items[i], items[j]);
  }

  /** The candidates behind the anchor, best first. */
  lemma {:induction false} RankedAbove(events: seq<Event>, anchorId: Option<int>, i: nat, j: nat)
    requires UniqueIds(events) && |Listed(Find(events, anchorId))| <= i < j < |Ranked(events, anchorId)|
    ensures Above(Find(events, anchorId), Ranked(events, anchorId)[i], Ranked(events, anchorId)[j])
  {
    hide *;
    RankedDescends(events, anchorId);
    RankedLaws(events, anchorId);
    TailAbove(Ranked(events, anchorId), |Listed(Find(events, anchorId))|, Find(events, anchorId), i, j);
  }

  lemma {:induction false} TailAbove(items: seq<Event>, n: nat, anchor: Option<Event>, i: nat, j: nat)
    requires UniqueIds(items) && n <= i < j < |items| && Descending(items[n..], Ranking(anchor))
    ensures Above(anchor, items[i], items[j])
  {
    var tail := items[n..];
    assert forall a :: 0 <= a < |tail| ==> tail[a] == items[n + a];
    hide Above, Descending, Ranking;
    DescendsAbove(tail, anchor, i - n, j - n);
  }

  /** The anchor, or the best event of a story the anchor does not tell. */
  ghost predicate Survives(events: seq<Event>, anchorId: Option<int>, y: Event) {
    var anchor := Find(events, anchorId);
    && y in events
    && (anchor == Some(y)
        || (anchorId != Some(y.id) && (anchor.Some? ==> !SameStory(anchor.value, y))
            && forall z :: z in events && z.id != y.id && SameStory(z, y) ==> Above(anchor, y, z)))
  }

  lemma {:induction false} NewsIsBest(events: seq<Event>, anchorId: Option<int>, sorted: seq<Event>, j: nat)
    requires UniqueIds(sorted) && (forall x :: x in sorted <==> x in events) && j < |sorted|
    requires Descending(sorted, Ranking(Find(events, anchorId)))
    requires anchorId != Some(sorted[j].id)
    ensures IsNews(sorted, anchorId, Find(events, anchorId), j) <==> Survives(events, anchorId, sorted[j])
  {
    var anchor, y := Find(events, anchorId), sorted[j];
    hide Above, SameStory, Ranking, Descending;
    forall i | 0 <= i < |sorted| && i != j
      ensures sorted[i].id != y.id && (Above(anchor, y, sorted[i]) <==> j < i)
    {
      assert IdOf(sorted[i]) != IdOf(sorted[j]);
      if i < j {
        DescendsAbove(sorted, anchor, i, j);
        NotBothAbove(anchor, sorted[i], y);
      } else {
        DescendsAbove(sorted, anchor, j, i);
      }
    }
    if IsNews(sorted, anchorId, anchor, j) {
      forall z | z in events && z.id != y.id && SameStory(z, y)
        ensures Above(anchor, y, z)
      {
        var i :| 0 <= i < |sorted| && sorted[i] == z;
        if anchorId == Some(z.id) { TellsAnchor(events, anchorId, z); }
      }
    }
    if Survives(events, anchorId, y) {
      forall i | 0 <= i < j && anchorId != Some(sorted[i].id)
        ensures !SameStory(sorted[i], y)
      {
        assert sorted[i] in events;
      }
    }
  }

  lemma {:induction false} TellsAnchor(events: seq<Event>, anchorId: Option<int>, z: Event)
    requires z in events && anchorId == Some(z.id)
    ensures Find(events, anchorId).Some? && Find(events, anchorId).value.id == z.id
  {
  }

  lemma {:induction false} NotBothAbove(anchor: Option<Event>, x: Event, y: Event)
    requires Above(anchor, x, y)
    ensures !Above(anchor, y, x)
  {
    AboveIff(anchor, x, y);
    AboveIff(anchor, y, x);
    LexTotal(SortKey(x, anchor), SortKey(y, anchor));
  }

  /** Deduplication of the ranked list keeps the anchor and the best event of every other story. */
  lemma {:induction false} SurvivesIff(events: seq<Event>, anchorId: Option<int>, y: Event)
    requires UniqueIds(events)
    ensures y in Ranked(events, anchorId) <==> Survives(events, anchorId, y)
  {
    var anchor := Find(events, anchorId);
    var sorted, ranked, n := SortDescending(events, Ranking(anchor)), Ranked(events, anchorId), |Listed(anchor)|;
    SortedItems(events, anchor);
    FindByItems(events, sorted, anchorId);
    SortIsDescendingPermutation(events, Ranking(anchor));
    var at := DedupeKeeps(sorted, anchorId);
    hide SortDescending, Dedupe, Find, Ranking, UniqueIds, Descending, Survives, IsNews;
    assert ranked == Dedupe(sorted, anchorId);
    if y in ranked {
      var p :| 0 <= p < |ranked| && ranked[p] == y;
      KeptSurvives(events, anchorId, sorted, ranked, at, p);
    }
    if Survives(events, anchorId, y) {
      SurvivesIsKept(events, anchorId, sorted, ranked, at, y);
    }
  }

  lemma {:induction false} KeptSurvives(events: seq<Event>, anchorId: Option<int>, sorted: seq<Event>, ranked: seq<Event>, at: seq<nat>, p: nat)
    requires UniqueIds(sorted) && (forall x :: x in sorted <==> x in events) && Descending(sorted, Ranking(Find(events, anchorId)))
    requires KeptAt(sorted, anchorId, Find(events, anchorId), |sorted|, ranked, at) && p < |ranked|
    ensures Survives(events, anchorId, ranked[p])
  {
    var anchor := Find(events, anchorId);
    hide Above, SameStory, Descending, Ranking, UniqueIds;
    if p < |Listed(anchor)| {
      assert ranked[p] == Listed(anchor)[p];
    } else {
      var j := at[p - |Listed(anchor)|];
      assert j in at && ranked[|Listed(anchor)| + (p - |Listed(anchor)|)] == sorted[j];
      NewsIsBest(events, anchorId, sorted, j);
    }
  }

  lemma {:induction false} SurvivesIsKept(events: seq<Event>, anchorId: Option<int>, sorted: seq<Event>, ranked: seq<Event>, at: seq<nat>, y: Event)
    requires UniqueIds(sorted) && (forall x :: x in sorted <==> x in events) && Descending(sorted, Ranking(Find(events, anchorId)))
    requires KeptAt(sorted, anchorId, Find(events, anchorId), |sorted|, ranked, at) && Survives(events, anchorId, y)
    ensures y in ranked
  {
    var anchor := Find(events, anchorId);
    hide Above, SameStory, Descending, Ranking, UniqueIds;
    if anchor == Some(y) {
      assert ranked[0] == Listed(anchor)[0];
    } else {
      var j :| 0 <= j < |sorted| && sorted[j] == y;
      NewsIsBest(events, anchorId, sorted, j);
      var q :| 0 <= q < |at| && at[q] == j;
      assert ranked[|Listed(anchor)| + q] == sorted[at[q]];
    }
  }

  // ---- the order of filling -----------------------------------------------------------------------

  /** Stock, policy, hot, others. */
  function OrderOf(scope: string): nat {
    if scope == "stock" then 0 else if scope == "policy" then 1 else if scope == "hot" then 2 else 3
  }

  function QuotaOf(quotas: Quotas, scope: string): int {
    if scope == "stock" then quotas.stock else if scope == "policy" then quotas.policy else if scope == "hot" then quotas.hot else 0
  }

  /** How many of the events are of the scope. */
  function CountScope(items: seq<Event>, scope: string): nat {
    if items == [] then 0
    else CountScope(items[..|items| - 1], scope) + (if items[|items| - 1].scope == scope then 1 else 0)
  }

  /** Event i takes a place its scope has a quota for. */
  predicate WithinQuota(items: seq<Event>, quotas: Quotas, i: nat)
    requires i < |items|
  {
    OrderOf(items[i].scope) < 3 && CountScope(items[..i], items[i].scope) < QuotaOf(quotas, items[i].scope)
  }

  lemma {:induction false} CountIsPart(items: seq<Event>, x: Event)
    requires BucketOf(x).Some?
    ensures CountScope(items, x.scope) == |Part(items, BucketOf(x))|
  {
    if items != [] {
      CountIsPart(items[..|items| - 1], x);
    }
  }

  lemma {:induction false} BucketIsScope(x: Event, quotas: Quotas)
    ensures BucketOf(x).Some? <==> OrderOf(x.scope) < 3
    ensures forall b: nat :: b < 3 && BucketOf(x) == Some(BUCKETS[b]) ==> OrderOf(x.scope) == b
    ensures BucketOf(x).Some? ==> Quota(quotas, BucketOf(x).value) == QuotaOf(quotas, x.scope)
    ensures OrderOf(x.scope) < 3 ==> BucketOf(x) == Some(BUCKETS[OrderOf(x.scope)])
  {
    assert |BUCKETS| == 3 && BUCKETS[0] == Stock && BUCKETS[1] == Policy && BUCKETS[2] == Hot;
  }

  /** Where a bucket's loop has put an event, its quota was not used up. */
  lemma {:induction false} PickIsWithin(ranked: seq<Event>, anchor: Option<Event>, quotas: Quotas, b: nat, q: nat)
    requires UniqueIds(ranked) && AnchorLeads(ranked, anchor) && b < |BUCKETS|
    requires q < |Filled(ranked, anchor, quotas, b + 1)| - |Filled(ranked, anchor, quotas, b)|
    ensures var taken, more := Filled(ranked, anchor, quotas, b), Filled(ranked, anchor, quotas, b + 1);
            && taken <= more && |taken| + q < |more|
            && BucketOf(more[|taken| + q]) == Some(BUCKETS[b])
            && |Part(more[..|taken| + q], Some(BUCKETS[b]))| < Quota(quotas, BUCKETS[b])
  {
    hide *;
    var taken, bucket := Filled(ranked, anchor, quotas, b), BUCKETS[b];
    var room := Quota(quotas, bucket) - UsedByAnchor(anchor, bucket);
    var picks := Picks(ranked, taken, bucket, room);
    FilledNext(ranked, anchor, quotas, b);
    PicksAreFew(ranked, anchor, quotas, b);
    PicksOfBucket(ranked, taken, bucket, room);
    PickFits(taken, picks, Filled(ranked, anchor, quotas, b + 1), bucket, q, UsedByAnchor(anchor, bucket), Quota(quotas, bucket));
  }

  lemma {:induction false} PickFits(taken: seq<Event>, picks: seq<Event>, more: seq<Event>, bucket: Bucket, q: nat, used: nat, quota: int)
    requires more == taken + picks && |taken| + q < |more| && forall x :: x in picks ==> BucketOf(x) == Some(bucket)
    requires |Part(taken, Some(bucket))| == used && |picks| <= if quota - used > 0 then quota - used else 0
    ensures taken <= more && BucketOf(more[|taken| + q]) == Some(bucket) && |Part(more[..|taken| + q], Some(bucket))| < quota
  {
    hide *;
    PickAt(taken, picks, bucket, q);
  }

  lemma {:induction false} PicksAreFew(ranked: seq<Event>, anchor: Option<Event>, quotas: Quotas, b: nat)
    requires UniqueIds(ranked) && AnchorLeads(ranked, anchor) && b < |BUCKETS|
    ensures var taken, bucket := Filled(ranked, anchor, quotas, b), BUCKETS[b];
            var room := Quota(quotas, bucket) - UsedByAnchor(anchor, bucket);
            && |Picks(ranked, taken, bucket, room)| <= (if room > 0 then room else 0)
            && |Part(taken, Some(bucket))| == UsedByAnchor(anchor, bucket)
  {
    hide *;
    var taken, bucket := Filled(ranked, anchor, quotas, b), BUCKETS[b];
    var room := Quota(quotas, bucket) - UsedByAnchor(anchor, bucket);
    FilledLaws(ranked, anchor, quotas, b);
    ShareAt(ranked, anchor, quotas, b + 1, taken);
    PicksAreNext(ranked, ranked, taken, bucket, room);
    ShortSlice(Part(ranked, Some(bucket)), |Part(taken, Some(bucket))|, room);
  }

  lemma {:induction false} PickAt(taken: seq<Event>, picks: seq<Event>, bucket: Bucket, q: nat)
    requires q < |picks| && forall x :: x in picks ==> BucketOf(x) == Some(bucket)
    ensures var more := taken + picks;
            && BucketOf(more[|taken| + q]) == Some(bucket)
            && |Part(more[..|taken| + q], Some(bucket))| == |Part(taken, Some(bucket))| + q
  {
    hide Part, BucketOf;
    var more := taken + picks;
    assert more[..|taken| + q] == taken + picks[..q] && more[|taken| + q] == picks[q];
    assert forall x :: x in picks[..q] ==> x in picks;
    PartConcat(taken, picks[..q], Some(bucket));
    AllOfBucket(picks[..q], bucket);
  }

  lemma {:induction false} ShortSlice(part: seq<Event>, m: nat, room: int)
    ensures |Slice(part, m, room)| <= if room > 0 then room else 0
  {
  }

  lemma {:induction false} AllOfBucket(items: seq<Event>, bucket: Bucket)
    requires forall x :: x in items ==> BucketOf(x) == Some(bucket)
    ensures |Part(items, Some(bucket))| == |items|
  {
    hide Part;
    PartOfPart(items, Some(bucket), Some(bucket));
  }

  lemma {:induction false} PicksOfBucket(ranked: seq<Event>, taken: seq<Event>, bucket: Bucket, room: int)
    ensures forall x :: x in Picks(ranked, taken, bucket, room) ==> BucketOf(x) == Some(bucket)
  {
    if ranked != [] {
      PicksOfBucket(ranked[..|ranked| - 1], taken, bucket, room);
    }
  }

  /** An event that is left after the buckets has no bucket, or its bucket's quota is used up. */
  lemma {:induction false} RestIsBeyond(ranked: seq<Event>, anchor: Option<Event>, quotas: Quotas, x: Event, bucket: Bucket)
    requires UniqueIds(ranked) && AnchorLeads(ranked, anchor)
    requires x in Rest(ranked, Filled(ranked, anchor, quotas, |BUCKETS|)) && BucketOf(x) == Some(bucket)
    ensures |Part(Filled(ranked, anchor, quotas, |BUCKETS|), Some(bucket))| >= Quota(quotas, bucket)
  {
    var taken := Filled(ranked, anchor, quotas, |BUCKETS|);
    hide *;
    FilledLaws(ranked, anchor, quotas, |BUCKETS|);
    RestIsLeft(ranked, ranked, taken, Some(bucket));
    PartItems(Rest(ranked, taken), Some(bucket));
    SliceLeaves(Part(ranked, Some(bucket)), |Part(taken, Some(bucket))|, |ranked|, x);
    ShareWhenLeft(ranked, anchor, quotas, taken, bucket);
  }

  lemma {:induction false} SliceLeaves(part: seq<Event>, m: nat, room: int, x: Event)
    requires x in Slice(part, m, room)
    ensures m < |part|
  {
  }

  lemma {:induction false} ShareWhenLeft(ranked: seq<Event>, anchor: Option<Event>, quotas: Quotas, taken: seq<Event>, bucket: Bucket)
    requires SharesTaken(ranked, anchor, quotas, |BUCKETS|, taken) && |Part(taken, Some(bucket))| < |Part(ranked, Some(bucket))|
    ensures |Part(taken, Some(bucket))| >= Quota(quotas, bucket)
  {
    hide Part, UsedByAnchor;
    assert |Part(taken, Some(bucket))| == ShareAfter(ranked, anchor, quotas, |BUCKETS|, bucket);
  }

  // ---- positions ------------------------------------------------------------------------------------

  /** The items of `picked` are those of `items` at ascending positions. */
  ghost predicate PickedAt(items: seq<Event>, picked: seq<Event>, at: seq<nat>) {
    && |at| == |picked| && (forall i, j :: 0 <= i < j < |at| ==> at[i] < at[j])
    && (forall i :: 0 <= i < |at| ==> at[i] < |items| && picked[i] == items[at[i]])
  }

  lemma {:induction false} PickedMore(items: seq<Event>, x: Event, picked: seq<Event>, at: seq<nat>)
    requires PickedAt(items, picked, at)
    ensures PickedAt(items + [x], picked, at) && PickedAt(items + [x], picked + [x], at + [|items|])
  {
  }

  lemma {:induction false} RestAt(items: seq<Event>, taken: seq<Event>) returns (at: seq<nat>)
    ensures PickedAt(items, Rest(items, taken), at)
    decreases |items|
  {
    if items == [] {
      at := [];
    } else {
      var init, x := items[..|items| - 1], items[|items| - 1];
      assert items == init + [x];
      at := RestAt(init, taken);
      RestNext(init, x, taken);
      PickedMore(init, x, Rest(init, taken), at);
      hide Rest, HasId, PickedAt;
      if Rest(items, taken) != Rest(init, taken) {
        at := at + [|init|];
      }
    }
  }

  lemma {:induction false} PartAt(items: seq<Event>, k: Option<Bucket>) returns (at: seq<nat>)
    ensures PickedAt(items, Part(items, k), at)
    decreases |items|
  {
    if items == [] {
      at := [];
    } else {
      var init, x := items[..|items| - 1], items[|items| - 1];
      assert items == init + [x];
      at := PartAt(init, k);
      PartNext(init, x, k);
      PickedMore(init, x, Part(init, k), at);
      hide Part, BucketOf, PickedAt;
      if BucketOf(x) == k {
        at := at + [|init|];
      }
    }
  }

  /** An item's place in its part is the number of items of the part before it. */
  lemma {:induction false} PlaceInPart(items: seq<Event>, i: nat)
    requires i < |items|
    ensures var part, p := Part(items, BucketOf(items[i])), |Part(items[..i], BucketOf(items[i]))|;
            p < |part| && part[p] == items[i]
  {
    var k := BucketOf(items[i]);
    assert items == items[..i] + [items[i]] + items[i + 1..];
    hide BucketOf, Part;
    PartConcat(items[..i] + [items[i]], items[i + 1..], k);
    PartNext(items[..i], items[i], k);
  }

  lemma {:induction false} PlacesAscend(items: seq<Event>, i: nat, j: nat)
    requires i < j < |items| && BucketOf(items[i]) == BucketOf(items[j])
    ensures |Part(items[..i], BucketOf(items[i]))| < |Part(items[..j], BucketOf(items[i]))|
  {
    var k := BucketOf(items[i]);
    assert items[..j] == items[..i] + [items[i]] + items[i + 1..j];
    hide BucketOf, Part;
    PartConcat(items[..i] + [items[i]], items[i + 1..j], k);
    PartNext(items[..i], items[i], k);
  }

  // ---- everything in the order it is taken -------------------------------------------------------------

  /** The candidates, as the ranking leaves them. */
  ghost predicate Candidates(ranked: seq<Event>, anchor: Option<Event>) {
    && UniqueIds(ranked) && AnchorLeads(ranked, anchor) && |Listed(anchor)| <= |ranked|
    && Descending(ranked[|Listed(anchor)|..], Ranking(anchor))
  }

  lemma {:induction false} RankedCandidates(events: seq<Event>, anchorId: Option<int>)
    requires UniqueIds(events)
    ensures Candidates(Ranked(events, anchorId), Find(events, anchorId))
  {
    hide Ranked, Find, Descending, Ranking, UniqueIds;
    RankedDescends(events, anchorId);
    RankedLaws(events, anchorId);
  }

  lemma {:induction false} SameIds(a: seq<Event>, b: seq<Event>)
    requires UniqueIds(a) && multiset(a) == multiset(b)
    ensures UniqueIds(b)
  {
    UniqueByItems(a, b, IdOf);
  }

  lemma {:induction false} AllIds(ranked: seq<Event>, anchor: Option<Event>, quotas: Quotas)
    requires Candidates(ranked, anchor)
    ensures var all := InOrder(ranked, anchor, quotas);
            && UniqueIds(all) && |all| == |ranked| && Listed(anchor) <= all && (forall x :: x in all <==> x in ranked)
            && (forall k :: Part(all, k) == Part(ranked, k))
            && (forall n: nat :: n <= |BUCKETS| ==> Filled(ranked, anchor, quotas, n) <= all)
            && all == Filled(ranked, anchor, quotas, |BUCKETS|) + Rest(ranked, Filled(ranked, anchor, quotas, |BUCKETS|))
  {
    hide Part, Filled, Rest, Descending, UniqueIds, InOrder;
    var all := InOrder(ranked, anchor, quotas);
    InOrderLaws(ranked, anchor, quotas);
    InOrderIs(ranked, anchor, quotas);
    SameIds(ranked, all);
    FilledFrom(ranked, anchor, quotas);
    FilledGrows(ranked, anchor, quotas, 0, |BUCKETS|);
    forall x
      ensures x in all <==> x in ranked
    {
      assert x in multiset(all) <==> x in multiset(ranked);
    }
    forall n: nat | n <= |BUCKETS|
      ensures Filled(ranked, anchor, quotas, n) <= all
    {
      FilledGrows(ranked, anchor, quotas, n, |BUCKETS|);
    }
  }

  /** Events of one bucket come best first, behind the anchor. */
  lemma {:induction false} SameBucketAbove(ranked: seq<Event>, anchor: Option<Event>, quotas: Quotas, i: nat, j: nat)
    requires Candidates(ranked, anchor) && |Listed(anchor)| <= i < j < |InOrder(ranked, anchor, quotas)|
    requires BucketOf(InOrder(ranked, anchor, quotas)[i]) == BucketOf(InOrder(ranked, anchor, quotas)[j])
    ensures Above(anchor, InOrder(ranked, anchor, quotas)[i], InOrder(ranked, anchor, quotas)[j])
  {
    hide *;
    var all := InOrder(ranked, anchor, quotas);
    var k := BucketOf(all[i]);
    AllIds(ranked, anchor, quotas);
    PlaceInPart(all, i);
    PlaceInPart(all, j);
    PlacesAscend(all, i, j);
    var at := PartAt(ranked, k);
    BothRanked(ranked, anchor, Part(ranked, k), at, |Part(all[..i], k)|, |Part(all[..j], k)|, all, i);
  }

  lemma {:induction false} BothRanked(ranked: seq<Event>, anchor: Option<Event>, picked: seq<Event>, at: seq<nat>, p: nat, q: nat,
                                      all: seq<Event>, i: nat)
    requires Candidates(ranked, anchor) && PickedAt(ranked, picked, at) && p < q < |picked|
    requires UniqueIds(all) && Listed(anchor) <= all && |Listed(anchor)| <= i < |all| && picked[p] == all[i]
    ensures Above(anchor, picked[p], picked[q])
  {
    if anchor.Some? {
      assert ranked[0] == anchor.value && all[0] == Listed(anchor)[0];
      assert IdOf(all[0]) != IdOf(all[i]);
    }
    assert at[p] >= |Listed(anchor)|;
    hide Above, Descending, Ranking;
    TailAbove(ranked, |Listed(anchor)|, anchor, at[p], at[q]);
  }

  lemma {:induction false} AllIsRest(ranked: seq<Event>, anchor: Option<Event>, quotas: Quotas)
    requires Candidates(ranked, anchor)
    ensures var all, taken := InOrder(ranked, anchor, quotas), Filled(ranked, anchor, quotas, |BUCKETS|);
            UniqueIds(all) && Listed(anchor) <= all && all == taken + Rest(ranked, taken)
  {
    hide *;
    AllIds(ranked, anchor, quotas);
  }

  /** What is left after the buckets comes best first. */
  lemma {:induction false} RestAbove(ranked: seq<Event>, anchor: Option<Event>, quotas: Quotas, i: nat, j: nat)
    requires Candidates(ranked, anchor)
    requires |Filled(ranked, anchor, quotas, |BUCKETS|)| <= i < j < |InOrder(ranked, anchor, quotas)|
    ensures Above(anchor, InOrder(ranked, anchor, quotas)[i], InOrder(ranked, anchor, quotas)[j])
  {
    hide *;
    var all, taken := InOrder(ranked, anchor, quotas), Filled(ranked, anchor, quotas, |BUCKETS|);
    var rest := Rest(ranked, taken);
    AllIsRest(ranked, anchor, quotas);
    AnchorInFilled(ranked, anchor, quotas);
    var p, q: nat := i - |taken|, j - |taken|;
    assert p < q < |rest| && all[i] == rest[p] && all[j] == rest[q];
    var at := RestAt(ranked, taken);
    BothRanked(ranked, anchor, rest, at, p, q, all, i);
  }

  lemma {:induction false} AnchorInFilled(ranked: seq<Event>, anchor: Option<Event>, quotas: Quotas)
    ensures |Listed(anchor)| <= |Filled(ranked, anchor, quotas, |BUCKETS|)|
  {
    hide Filled;
    FilledFrom(ranked, anchor, quotas);
    FilledGrows(ranked, anchor, quotas, 0, |BUCKETS|);
  }

  /** The phase in which an event is taken shows in its scope and its place there. */
  lemma {:induction false} PickedPhase(ranked: seq<Event>, anchor: Option<Event>, quotas: Quotas, b: nat, i: nat)
    requires Candidates(ranked, anchor) && b < |BUCKETS|
    requires |Filled(ranked, anchor, quotas, b)| <= i < |Filled(ranked, anchor, quotas, b + 1)|
    ensures i < |InOrder(ranked, anchor, quotas)|
    ensures WithinQuota(InOrder(ranked, anchor, quotas), quotas, i) && OrderOf(InOrder(ranked, anchor, quotas)[i].scope) == b
  {
    hide *;
    var all, taken, more := InOrder(ranked, anchor, quotas), Filled(ranked, anchor, quotas, b), Filled(ranked, anchor, quotas, b + 1);
    AllIds(ranked, anchor, quotas);
    CandidatesAre(ranked, anchor);
    PickIsWithin(ranked, anchor, quotas, b, i - |taken|);
    assert more <= all && all[i] == more[i] && all[..i] == more[..i];
    IsWithin(all, quotas, i, b);
  }

  lemma {:induction false} CandidatesAre(ranked: seq<Event>, anchor: Option<Event>)
    requires Candidates(ranked, anchor)
    ensures UniqueIds(ranked) && AnchorLeads(ranked, anchor)
  {
  }

  lemma {:induction false} IsWithin(items: seq<Event>, quotas: Quotas, i: nat, b: nat)
    requires i < |items| && b < |BUCKETS| && BucketOf(items[i]) == Some(BUCKETS[b])
    ensures OrderOf(items[i].scope) == b
    ensures WithinQuota(items, quotas, i) <==> |Part(items[..i], Some(BUCKETS[b]))| < Quota(quotas, BUCKETS[b])
  {
    BucketIsScope(items[i], quotas);
    CountIsPart(items[..i], items[i]);
  }

  lemma {:induction false} LeftPhase(ranked: seq<Event>, anchor: Option<Event>, quotas: Quotas, i: nat)
    requires Candidates(ranked, anchor)
    requires |Filled(ranked, anchor, quotas, |BUCKETS|)| <= i < |InOrder(ranked, anchor, quotas)|
    ensures !WithinQuota(InOrder(ranked, anchor, quotas), quotas, i)
  {
    var all, taken := InOrder(ranked, anchor, quotas), Filled(ranked, anchor, quotas, |BUCKETS|);
    var x := all[i];
    hide *;
    AllIds(ranked, anchor, quotas);
    CandidatesAre(ranked, anchor);
    assert x == Rest(ranked, taken)[i - |taken|];
    BucketIsScope(x, quotas);
    if OrderOf(x.scope) < 3 {
      var bucket := BUCKETS[OrderOf(x.scope)];
      RestIsBeyond(ranked, anchor, quotas, x, bucket);
      assert taken <= all[..i];
      PartPrefix(taken, all[..i], Some(bucket));
      IsWithin(all, quotas, i, OrderOf(x.scope));
    } else {
      NotInBucket(all, quotas, i);
    }
  }

  lemma {:induction false} NotInBucket(items: seq<Event>, quotas: Quotas, i: nat)
    requires i < |items| && OrderOf(items[i].scope) >= 3
    ensures !WithinQuota(items, quotas, i)
  {
  }

  lemma {:induction false} PhaseOf(ranked: seq<Event>, anchor: Option<Event>, quotas: Quotas, i: nat, n: nat) returns (b: nat)
    requires n <= |BUCKETS| && |Listed(anchor)| <= i < |Filled(ranked, anchor, quotas, n)|
    ensures b < n && |Filled(ranked, anchor, quotas, b)| <= i < |Filled(ranked, anchor, quotas, b + 1)|
    decreases n
  {
    hide Filled;
    FilledFrom(ranked, anchor, quotas);
    if n == 0 {
      assert false;
    } else if i < |Filled(ranked, anchor, quotas, n - 1)| {
      b := PhaseOf(ranked, anchor, quotas, i, n - 1);
    } else {
      b := n - 1;
    }
  }

  /** Everything in order: quotas first, stock before policy before hot, best first in each; then the
      others, best first. */
  lemma {:induction false} AllInOrder(ranked: seq<Event>, anchor: Option<Event>, quotas: Quotas, i: nat, j: nat)
    requires Candidates(ranked, anchor) && |Listed(anchor)| <= i < j < |InOrder(ranked, anchor, quotas)|
    ensures var all := InOrder(ranked, anchor, quotas);
            && (WithinQuota(all, quotas, j) ==> WithinQuota(all, quotas, i) && OrderOf(all[i].scope) <= OrderOf(all[j].scope))
            && (all[i].scope == all[j].scope || !WithinQuota(all, quotas, i) ==> Above(anchor, all[i], all[j]))
  {
    var all, n := InOrder(ranked, anchor, quotas), |Filled(ranked, anchor, quotas, |BUCKETS|)|;
    hide *;
    if j < n {
      var c := PhaseOf(ranked, anchor, quotas, j, |BUCKETS|);
      var b := PhaseOf(ranked, anchor, quotas, i, |BUCKETS|);
      PickedPhase(ranked, anchor, quotas, c, j);
      PickedPhase(ranked, anchor, quotas, b, i);
      if b > c { FilledGrows(ranked, anchor, quotas, c + 1, b); }
    } else {
      LeftPhase(ranked, anchor, quotas, j);
      if i < n {
        var b := PhaseOf(ranked, anchor, quotas, i, |BUCKETS|);
        PickedPhase(ranked, anchor, quotas, b, i);
      } else {
        RestAbove(ranked, anchor, quotas, i, j);
      }
    }
    if all[i].scope == all[j].scope {
      SameScopeBucket(all[i], all[j]);
      SameBucketAbove(ranked, anchor, quotas, i, j);
    }
  }

  lemma {:induction false} SameScopeBucket(x: Event, y: Event)
    requires x.scope == y.scope
    ensures BucketOf(x) == BucketOf(y)
  {
  }

  // ---- the selection ----------------------------------------------------------------------------------

  lemma {:induction false} SelectedIs(events: seq<Event>, anchorId: Option<int>, limit: int, quotas: Quotas)
    requires UniqueIds(events)
    ensures var anchor, ranked, selected := Find(events, anchorId), Ranked(events, anchorId), Select(events, anchorId, limit, quotas);
            && Candidates(ranked, anchor) && selected <= InOrder(ranked, anchor, quotas)
            && (limit > 0 && selected != InOrder(ranked, anchor, quotas) ==> |selected| == limit)
            && (forall x :: x in InOrder(ranked, anchor, quotas) <==> Survives(events, anchorId, x))
  {
    var anchor, ranked := Find(events, anchorId), Ranked(events, anchorId);
    RankedCandidates(events, anchorId);
    AllIds(ranked, anchor, quotas);
    hide Ranked, Find, InOrder, Candidates, Survives;
    TakeIsPrefix(InOrder(ranked, anchor, quotas), limit);
    forall x
      ensures x in InOrder(ranked, anchor, quotas) <==> Survives(events, anchorId, x)
    {
      SurvivesIff(events, anchorId, x);
    }
  }

  lemma {:induction false} BehindAnchor(all: seq<Event>, anchor: Option<Event>, anchorId: Option<int>, i: nat)
    requires i < |all| && Listed(anchor) <= all && anchorId != Some(all[i].id)
    requires anchor.Some? ==> anchorId == Some(anchor.value.id)
    ensures |Listed(anchor)| <= i
  {
    if anchor.Some? { assert Listed(anchor)[0] == all[0]; }
  }

  lemma {:induction false} WithinInPrefix(items: seq<Event>, all: seq<Event>, quotas: Quotas, i: nat)
    requires items <= all && i < |items|
    ensures WithinQuota(items, quotas, i) <==> WithinQuota(all, quotas, i)
  {
    assert items[..i] == all[..i] && items[i] == all[i];
    hide CountScope;
  }

  /** The order of the result, behind the anchor: events within the quotas come first, stock before
      policy before hot; in one scope, and among those beyond the quotas, the preferred one comes
      first. Only survivors of the deduplication are selected. */
  lemma {:induction false} SelectionOrder(events: seq<Event>, anchorId: Option<int>, limit: int, quotas: Quotas, i: nat, j: nat)
    requires UniqueIds(events) && i < j < |Select(events, anchorId, limit, quotas)|
    requires anchorId != Some(Select(events, anchorId, limit, quotas)[i].id)
    ensures var anchor, selected := Find(events, anchorId), Select(events, anchorId, limit, quotas);
            && Survives(events, anchorId, selected[i]) && Survives(events, anchorId, selected[j])
            && (WithinQuota(selected, quotas, j) ==>
                  WithinQuota(selected, quotas, i) && OrderOf(selected[i].scope) <= OrderOf(selected[j].scope))
            && (selected[i].scope == selected[j].scope || !WithinQuota(selected, quotas, i) ==> Above(anchor, selected[i], selected[j]))
  {
    var anchor, ranked, selected := Find(events, anchorId), Ranked(events, anchorId), Select(events, anchorId, limit, quotas);
    var all := InOrder(ranked, anchor, quotas);
    hide *;
    SelectedIs(events, anchorId, limit, quotas);
    AllIds(ranked, anchor, quotas);
    assert selected[i] == all[i] && selected[j] == all[j] && all[i] in all && all[j] in all;
    BehindAnchor(all, anchor, anchorId, i);
    WithinInPrefix(selected, all, quotas, i);
    WithinInPrefix(selected, all, quotas, j);
    AllInOrder(ranked, anchor, quotas, i, j);
  }

  /** After n buckets, an unselected candidate of one of them shows that its quota is used up. */
  lemma {:induction false} UsedUp(ranked: seq<Event>, anchor: Option<Event>, quotas: Quotas, n: nat, selected: seq<Event>, y: Event, b: nat)
    requires Candidates(ranked, anchor) && b < n <= |BUCKETS| && BucketOf(y) == Some(BUCKETS[b])
    requires Filled(ranked, anchor, quotas, n) <= selected <= InOrder(ranked, anchor, quotas)
    requires y in ranked && y !in selected
    ensures |Part(selected, Some(BUCKETS[b]))| >= Quota(quotas, BUCKETS[b])
  {
    hide *;
    var taken, all, bucket := Filled(ranked, anchor, quotas, n), InOrder(ranked, anchor, quotas), BUCKETS[b];
    AllIds(ranked, anchor, quotas);
    CandidatesAre(ranked, anchor);
    FilledLaws(ranked, anchor, quotas, n);
    PartPrefix(taken, selected, Some(bucket));
    PartPrefix(selected, all, Some(bucket));
    PartItems(all, Some(bucket));
    PartItems(selected, Some(bucket));
    assert y in Part(all, Some(bucket)) && y !in Part(selected, Some(bucket));
    assert |Part(selected, Some(bucket))| < |Part(all, Some(bucket))|;
    BucketNumber(b);
    ShareAfterQuota(ranked, anchor, quotas, n, taken, bucket, |Part(selected, Some(bucket))|);
  }

  lemma {:induction false} BucketNumber(b: nat)
    requires b < |BUCKETS|
    ensures PlaceOf(BUCKETS[b]) == b
  {
  }

  lemma {:induction false} ShareAfterQuota(ranked: seq<Event>, anchor: Option<Event>, quotas: Quotas, n: nat, taken: seq<Event>, bucket: Bucket, count: nat)
    requires SharesTaken(ranked, anchor, quotas, n, taken) && PlaceOf(bucket) < n
    requires |Part(taken, Some(bucket))| <= count < |Part(ranked, Some(bucket))|
    ensures count >= Quota(quotas, bucket)
  {
    hide Part, UsedByAnchor;
    assert |Part(taken, Some(bucket))| == ShareAfter(ranked, anchor, quotas, n, bucket);
  }

  /** What is left out: the result is full, whatever is selected in its scope or beyond the quotas is
      preferred to it, and if its own quota is not used up, only events of its scope or an earlier
      one are selected, all within their quotas. */
  lemma {:induction false} LeftOut(events: seq<Event>, anchorId: Option<int>, limit: int, quotas: Quotas, i: nat, y: Event)
    requires UniqueIds(events) && limit > 0 && i < |Select(events, anchorId, limit, quotas)|
    requires anchorId != Some(Select(events, anchorId, limit, quotas)[i].id)
    requires Survives(events, anchorId, y) && y !in Select(events, anchorId, limit, quotas)
    ensures var anchor, selected := Find(events, anchorId), Select(events, anchorId, limit, quotas);
            && |selected| == limit
            && (selected[i].scope == y.scope || !WithinQuota(selected, quotas, i) ==> Above(anchor, selected[i], y))
            && (OrderOf(y.scope) < 3 && CountScope(selected, y.scope) < QuotaOf(quotas, y.scope) ==>
                  WithinQuota(selected, quotas, i) && OrderOf(selected[i].scope) <= OrderOf(y.scope))
  {
    var anchor, ranked, selected := Find(events, anchorId), Ranked(events, anchorId), Select(events, anchorId, limit, quotas);
    var all := InOrder(ranked, anchor, quotas);
    hide *;
    SelectedIs(events, anchorId, limit, quotas);
    AllIds(ranked, anchor, quotas);
    assert selected[i] == all[i] && y in all;
    BehindAnchor(all, anchor, anchorId, i);
    WithinInPrefix(selected, all, quotas, i);
    var j :| 0 <= j < |all| && all[j] == y;
    assert forall m :: 0 <= m < |selected| ==> selected[m] == all[m] && selected[m] != y;
    AllInOrder(ranked, anchor, quotas, i, j);
    if OrderOf(y.scope) < 3 && CountScope(selected, y.scope) < QuotaOf(quotas, y.scope) {
      EarlierPhase(ranked, anchor, quotas, selected, i, y);
    }
  }

  lemma {:induction false} FilledIsPart(ranked: seq<Event>, anchor: Option<Event>, quotas: Quotas, n: nat, selected: seq<Event>)
    requires Candidates(ranked, anchor) && n <= |BUCKETS| && selected <= InOrder(ranked, anchor, quotas)
    requires |Filled(ranked, anchor, quotas, n)| <= |selected|
    ensures Filled(ranked, anchor, quotas, n) <= selected
  {
    hide *;
    AllIds(ranked, anchor, quotas);
  }

  lemma {:induction false} EarlierPhase(ranked: seq<Event>, anchor: Option<Event>, quotas: Quotas, selected: seq<Event>, i: nat, y: Event)
    requires Candidates(ranked, anchor) && selected <= InOrder(ranked, anchor, quotas) && |Listed(anchor)| <= i < |selected|
    requires y in ranked && y !in selected && OrderOf(y.scope) < 3 && CountScope(selected, y.scope) < QuotaOf(quotas, y.scope)
    ensures var all := InOrder(ranked, anchor, quotas);
            WithinQuota(all, quotas, i) && OrderOf(all[i].scope) <= OrderOf(y.scope)
  {
    var b, n := OrderOf(y.scope), |BUCKETS|;
    BucketIsScope(y, quotas);
    CountIsPart(selected, y);
    assert b < n;
    hide *;
    if |Filled(ranked, anchor, quotas, b + 1)| <= i {
      FilledIsPart(ranked, anchor, quotas, b + 1, selected);
      UsedUp(ranked, anchor, quotas, b + 1, selected, y, b);
      assert false;
    } else {
      var c := PhaseOf(ranked, anchor, quotas, i, b + 1);
      PickedPhase(ranked, anchor, quotas, c, i);
    }
  }
}
