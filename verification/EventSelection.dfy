/** Choosing the events an analysis reads (analysis_event_selection_service.py): rank them by a
    total key, drop logical duplicates with the anchor pinned first, fill three buckets up to
    their quotas, top up to a limit. */
module EventSelection {
  import opened Wrappers
  import opened Sequences

  datatype Bucket = Stock | Policy | Hot

  /** Strings are already stripped, the empty one standing for a missing value; times count from
      the smallest datetime. */
  datatype Event = Event(id: int, clusterKey: string, scope: string, tsCode: string, macroTopic: string,
                         title: string, url: string, publishedAt: Option<nat>, fetchedAt: Option<nat>,
                         createdAt: Option<nat>, sourcePriority: int)

  datatype LogicalKey =
    | Cluster(clusterKey: string)
    | Composite(scope: string, tsCode: string, title: string, publishedAt: Option<nat>, url: string)

  datatype Quotas = Quotas(stock: int, policy: int, hot: int)

  const BUCKETS: seq<Bucket> := [Stock, Policy, Hot]

  function KeyOf(event: Event): LogicalKey {
    if event.clusterKey != "" then Cluster(event.clusterKey)
    else Composite(event.scope, event.tsCode, event.title, event.publishedAt, event.url)
  }

  function BucketOf(event: Event): Option<Bucket> {
    if event.scope == "stock" then Some(Stock)
    else if event.scope == "policy" then Some(Policy)
    else if event.scope == "hot" then Some(Hot)
    else None
  }

  function IdOf(event: Event): int {
    event.id
  }

  function Quota(quotas: Quotas, bucket: Bucket): int {
    match bucket
    case Stock => quotas.stock
    case Policy => quotas.policy
    case Hot => quotas.hot
  }

  function Matches(a: string, b: string): int {
    if a != "" && b != "" && a == b then 1 else 0
  }

  function SortKey(event: Event, anchor: Option<Event>): seq<int> {
    [ if anchor.Some? then Matches(anchor.value.tsCode, event.tsCode) else 0,
      if anchor.Some? then Matches(anchor.value.macroTopic, event.macroTopic) else 0,
      event.publishedAt.GetOr(0),
      event.fetchedAt.GetOr(0),
      event.createdAt.GetOr(0),
      event.sourcePriority,
      event.id ]
  }

  function Ranking(anchor: Option<Event>): Event -> seq<int> {
    event => SortKey(event, anchor)
  }

  /** The first event with the wanted id. */
  function Find(events: seq<Event>, anchorId: Option<int>): (anchor: Option<Event>)
    ensures anchor.Some? ==> anchorId == Some(anchor.value.id) && anchor.value in events
    ensures anchor.None? && anchorId.Some? ==> forall event :: event in events ==> event.id != anchorId.value
  {
    if events == [] || anchorId.None? then None
    else if events[0].id == anchorId.value then Some(events[0])
    else Find(events[1..], anchorId)
  }

  function Listed(event: Option<Event>): seq<Event> {
    match event
    case Some(e) => [e]
    case None => []
  }

  function Without(events: seq<Event>, id: Option<int>): seq<Event> {
    if events == [] then []
    else
      var last := events[|events| - 1];
      Without(events[..|events| - 1], id) + if id == Some(last.id) then [] else [last]
  }

  /** One event per logical key, the anchor first, the others in the order given. */
  function Dedupe(events: seq<Event>, anchorId: Option<int>): seq<Event> {
    DistinctBy(Listed(Find(events, anchorId)) + Without(events, anchorId), KeyOf)
  }

  function Ranked(events: seq<Event>, anchorId: Option<int>): seq<Event> {
    Dedupe(SortDescending(events, Ranking(Find(events, anchorId))), anchorId)
  }

  predicate HasId(events: seq<Event>, id: int) {
    exists i :: 0 <= i < |events| && events[i].id == id
  }

  /** Up to `room` events of the bucket that are not taken yet, in order. */
  function Picks(items: seq<Event>, taken: seq<Event>, bucket: Bucket, room: int): seq<Event> {
    if items == [] then []
    else
      var picked := Picks(items[..|items| - 1], taken, bucket, room);
      var last := items[|items| - 1];
      if HasId(taken + picked, last.id) || BucketOf(last) != Some(bucket) || |picked| >= room then picked
      else picked + [last]
  }

  /** Every event that is not taken yet, in order. */
  function Rest(items: seq<Event>, taken: seq<Event>): seq<Event> {
    if items == [] then []
    else
      var picked := Rest(items[..|items| - 1], taken);
      var last := items[|items| - 1];
      if HasId(taken + picked, last.id) then picked else picked + [last]
  }

  function UsedByAnchor(anchor: Option<Event>, bucket: Bucket): nat {
    if anchor.Some? && BucketOf(anchor.value) == Some(bucket) then 1 else 0
  }

  /** What is taken after the first n buckets. */
  function Filled(items: seq<Event>, anchor: Option<Event>, quotas: Quotas, n: nat): seq<Event>
    requires n <= |BUCKETS|
  {
    if n == 0 then Listed(anchor)
    else
      var taken := Filled(items, anchor, quotas, n - 1);
      var bucket := BUCKETS[n - 1];
      taken + Picks(items, taken, bucket, Quota(quotas, bucket) - UsedByAnchor(anchor, bucket))
  }

  /** Everything in the order in which it is taken, before the limit cuts it. */
  function InOrder(items: seq<Event>, anchor: Option<Event>, quotas: Quotas): seq<Event> {
    var taken := Filled(items, anchor, quotas, |BUCKETS|);
    taken + Rest(items, taken)
  }

  function Take<T>(items: seq<T>, limit: int): seq<T> {
    if limit <= 0 then [] else if limit < |items| then items[..limit] else items
  }

  function Select(events: seq<Event>, anchorId: Option<int>, limit: int, quotas: Quotas): seq<Event> {
    Take(InOrder(Ranked(events, anchorId), Find(events, anchorId), quotas), limit)
  }

  // ---- the loops ---------------------------------------------------------------------------------

  method DedupePreservingOrder(events: seq<Event>, anchorId: Option<int>) returns (deduped: seq<Event>)
    ensures deduped == Dedupe(events, anchorId)
  {
    hide KeyOf, HasKey, TracksKeys;
    var anchor := Find(events, anchorId);
    deduped := [];
    var seen: set<LogicalKey> := {};
    assert TracksKeys(seen, deduped) by { TracksNothing(); }
    if anchor.Some? {
      TracksKeysAppended(seen, deduped, anchor.value);
      assert [] + [anchor.value] == [anchor.value];
      deduped, seen := [anchor.value], seen + {KeyOf(anchor.value)};
    }
    AnchorAlone(anchor);
    for i := 0 to |events|
      invariant deduped == DistinctBy(Listed(anchor) + Without(events[..i], anchorId), KeyOf)
      invariant TracksKeys(seen, deduped)
    {
      DedupeNext(events, anchorId, anchor, i);
      if anchorId == Some(events[i].id) {
        continue;
      }
      var key := KeyOf(events[i]);
      assert key in seen <==> HasKey(deduped, KeyOf, key) by { TracksKeysAt(seen, deduped, key); }
      if key in seen {
        continue;
      }
      TracksKeysAppended(seen, deduped, events[i]);
      deduped := deduped + [events[i]];
      seen := seen + {key};
    }
    assert events[..|events|] == events;
  }

  lemma {:induction false} TracksKeysAt(seen: set<LogicalKey>, items: seq<Event>, key: LogicalKey)
    requires TracksKeys(seen, items)
    ensures key in seen <==> HasKey(items, KeyOf, key)
  {
  }

  lemma {:induction false} TracksNothing()
    ensures TracksKeys({}, [])
  {
  }

  lemma {:induction false} AnchorAlone(anchor: Option<Event>)
    ensures DistinctBy(Listed(anchor) + [], KeyOf) == Listed(anchor)
  {
    assert Listed(anchor) + [] == Listed(anchor);
    if anchor.Some? {
      assert Listed(anchor)[..0] == [];
      assert DistinctBy(Listed(anchor)[..0], KeyOf) == [];
      assert !HasKey<Event, LogicalKey>([], KeyOf, KeyOf(anchor.value));
    }
  }

  /** The step of the loop, on the specification. */
  lemma {:induction false} DedupeNext(events: seq<Event>, anchorId: Option<int>, anchor: Option<Event>, i: nat)
    requires i < |events|
    ensures var before := DistinctBy(Listed(anchor) + Without(events[..i], anchorId), KeyOf);
            DistinctBy(Listed(anchor) + Without(events[..i + 1], anchorId), KeyOf)
            == if anchorId == Some(events[i].id) || HasKey(before, KeyOf, KeyOf(events[i])) then before
               else before + [events[i]]
  {
    hide KeyOf, HasKey;
    var head := Listed(anchor) + Without(events[..i], anchorId);
    assert events[..i + 1][..i] == events[..i];
    if anchorId != Some(events[i].id) {
      var input := head + [events[i]];
      assert Listed(anchor) + Without(events[..i + 1], anchorId) == input;
      assert input[..|input| - 1] == head;
    } else {
      assert Without(events[..i + 1], anchorId) == Without(events[..i], anchorId);
    }
  }

  lemma {:induction false} HasKeyOfAppended(items: seq<Event>, event: Event, k: LogicalKey)
    ensures HasKey(items + [event], KeyOf, k) <==> HasKey(items, KeyOf, k) || KeyOf(event) == k
  {
    var longer := items + [event];
    if HasKey(items, KeyOf, k) {
      var i :| 0 <= i < |items| && KeyOf(items[i]) == k;
      assert KeyOf(longer[i]) == k;
    }
    if KeyOf(event) == k {
      assert KeyOf(longer[|items|]) == k;
    }
  }

  /** `seen` are the ids of the items. */
  ghost predicate Tracks(seen: set<int>, items: seq<Event>) {
    forall id :: id in seen <==> HasId(items, id)
  }

  ghost predicate TracksKeys(seen: set<LogicalKey>, items: seq<Event>) {
    forall k :: k in seen <==> HasKey(items, KeyOf, k)
  }

  lemma {:induction false} TracksAppended(seen: set<int>, items: seq<Event>, event: Event)
    requires Tracks(seen, items)
    ensures Tracks(seen + {event.id}, items + [event])
  {
    var longer := items + [event];
    assert longer[|items|].id == event.id;
    forall id
      ensures id in seen + {event.id} <==> HasId(longer, id)
    {
      if HasId(items, id) {
        var i :| 0 <= i < |items| && items[i].id == id;
        assert longer[i].id == id;
      }
    }
  }

  lemma {:induction false} TracksAt(seen: set<int>, items: seq<Event>, id: int)
    requires Tracks(seen, items)
    ensures id in seen <==> HasId(items, id)
  {
  }

  lemma {:induction false} TracksAnchor(anchor: Option<Event>)
    ensures Tracks(if anchor.Some? then {anchor.value.id} else {}, Listed(anchor))
  {
    assert anchor.Some? ==> Listed(anchor)[0] == anchor.value;
  }

  lemma {:induction false} TracksKeysAppended(seen: set<LogicalKey>, items: seq<Event>, event: Event)
    requires TracksKeys(seen, items)
    ensures TracksKeys(seen + {KeyOf(event)}, items + [event])
  {
    forall k
      ensures k in seen + {KeyOf(event)} <==> HasKey(items + [event], KeyOf, k)
    {
      HasKeyOfAppended(items, event, k);
    }
  }

  /** What the loops have taken is the start of what the specification takes. */
  lemma {:induction false} PicksGrow(items: seq<Event>, i: nat, taken: seq<Event>, bucket: Bucket, room: int)
    requires i <= |items|
    ensures Picks(items[..i], taken, bucket, room) <= Picks(items, taken, bucket, room)
    decreases |items|
  {
    if i == |items| {
      assert items[..i] == items;
    } else {
      PicksGrow(items[..|items| - 1], i, taken, bucket, room);
      assert items[..|items| - 1][..i] == items[..i];
    }
  }

  lemma {:induction false} RestGrows(items: seq<Event>, i: nat, taken: seq<Event>)
    requires i <= |items|
    ensures Rest(items[..i], taken) <= Rest(items, taken)
    decreases |items|
  {
    if i == |items| {
      assert items[..i] == items;
    } else {
      RestGrows(items[..|items| - 1], i, taken);
      assert items[..|items| - 1][..i] == items[..i];
    }
  }

  lemma {:induction false} FilledGrows(items: seq<Event>, anchor: Option<Event>, quotas: Quotas, n: nat, m: nat)
    requires n <= m <= |BUCKETS|
    ensures Filled(items, anchor, quotas, n) <= Filled(items, anchor, quotas, m)
    decreases m
  {
    if n < m {
      FilledGrows(items, anchor, quotas, n, m - 1);
    }
  }

  lemma {:induction false} CutEarly(shorter: seq<Event>, longer: seq<Event>, limit: int)
    requires shorter <= longer && limit <= |shorter|
    ensures Take(shorter, limit) == Take(longer, limit)
  {
  }

  lemma {:induction false} PicksAt(items: seq<Event>, i: nat, taken: seq<Event>, bucket: Bucket, room: int)
    requires i < |items|
    ensures var picked := Picks(items[..i], taken, bucket, room);
            Picks(items[..i + 1], taken, bucket, room)
            == if HasId(taken + picked, items[i].id) || BucketOf(items[i]) != Some(bucket) || |picked| >= room then picked
               else picked + [items[i]]
  {
    hide HasId, BucketOf;
    assert items[..i + 1][..i] == items[..i];
  }

  lemma {:induction false} NothingPicked(taken: seq<Event>, bucket: Bucket, room: int)
    ensures Picks([], taken, bucket, room) == []
  {
  }

  /** One bucket: picks until the bucket's quota, the candidates or the limit run out. */
  method FillBucket(items: seq<Event>, taken: seq<Event>, seen: set<int>, bucket: Bucket, quota: int, used: nat, limit: int)
      returns (selected: seq<Event>, seen': set<int>, full: bool)
    requires Tracks(seen, taken)
    ensures Tracks(seen', selected)
    ensures selected <= taken + Picks(items, taken, bucket, quota - used)
    ensures if full then |selected| >= limit else selected == taken + Picks(items, taken, bucket, quota - used)
  {
    hide Tracks, HasId, BucketOf, Picks;
    selected, seen', full := taken, seen, false;
    var usedQuota := used;
    NothingPicked(taken, bucket, quota - used);
    assert items[..0] == [];
    for i := 0 to |items|
      invariant !full && selected == taken + Picks(items[..i], taken, bucket, quota - used)
      invariant usedQuota == used + |Picks(items[..i], taken, bucket, quota - used)|
      invariant Tracks(seen', selected)
    {
      var event := items[i];
      PicksAt(items, i, taken, bucket, quota - used);
      TracksAt(seen', selected, event.id);
      if event.id in seen' || BucketOf(event) != Some(bucket) || usedQuota >= quota {
        continue;
      }
      TracksAppended(seen', selected, event);
      selected := selected + [event];
      seen' := seen' + {event.id};
      usedQuota := usedQuota + 1;
      if |selected| >= limit {
        full := true;
        PicksGrow(items, i + 1, taken, bucket, quota - used);
        return;
      }
    }
    assert items[..|items|] == items;
  }

  lemma {:induction false} FilledFrom(items: seq<Event>, anchor: Option<Event>, quotas: Quotas)
    ensures Filled(items, anchor, quotas, 0) == Listed(anchor)
  {
  }

  lemma {:induction false} FilledNext(items: seq<Event>, anchor: Option<Event>, quotas: Quotas, n: nat)
    requires n < |BUCKETS|
    ensures var taken, bucket := Filled(items, anchor, quotas, n), BUCKETS[n];
            Filled(items, anchor, quotas, n + 1)
            == taken + Picks(items, taken, bucket, Quota(quotas, bucket) - UsedByAnchor(anchor, bucket))
  {
    hide Picks;
  }

  method SelectGenerationAnalysisEvents(events: seq<Event>, anchorId: Option<int>, limit: int, quotas: Quotas)
      returns (selected: seq<Event>)
    ensures selected == Select(events, anchorId, limit, quotas)
  {
    hide InOrder, Dedupe, SortDescending, Find, Ranking;
    if limit <= 0 {
      return [];
    }
    var anchor := Find(events, anchorId);
    var items := DedupePreservingOrder(SortDescending(events, Ranking(anchor)), anchorId);
    selected := FillBuckets(items, anchor, limit, quotas);
    return Take(selected, limit);
  }

  /** The three buckets in turn, then the top-up; stops as soon as the limit is reached. */
  method FillBuckets(items: seq<Event>, anchor: Option<Event>, limit: int, quotas: Quotas) returns (selected: seq<Event>)
    ensures Take(selected, limit) == Take(InOrder(items, anchor, quotas), limit)
  {
    TracksAnchor(anchor);
    hide Tracks, Picks, Rest, Filled, Take, UsedByAnchor, Quota;
    selected := Listed(anchor);
    var seen: set<int> := if anchor.Some? then {anchor.value.id} else {};
    assert selected == Filled(items, anchor, quotas, 0) by { FilledFrom(items, anchor, quotas); }
    for n := 0 to |BUCKETS|
      invariant selected == Filled(items, anchor, quotas, n)
      invariant Tracks(seen, selected)
    {
      var bucket, full := BUCKETS[n], false;
      FilledNext(items, anchor, quotas, n);
      FilledGrows(items, anchor, quotas, n + 1, |BUCKETS|);
      selected, seen, full := FillBucket(items, selected, seen, bucket, Quota(quotas, bucket), UsedByAnchor(anchor, bucket), limit);
      if full {
        CutEarly(selected, InOrder(items, anchor, quotas), limit);
        return;
      }
    }
    selected := TopUp(items, selected, seen, limit);
  }

  method TopUp(items: seq<Event>, taken: seq<Event>, seen: set<int>, limit: int) returns (selected: seq<Event>)
    requires Tracks(seen, taken)
    ensures Take(selected, limit) == Take(taken + Rest(items, taken), limit)
  {
    hide Tracks, HasId;
    selected := taken;
    var seen' := seen;
    for i := 0 to |items|
      invariant selected == taken + Rest(items[..i], taken)
      invariant Tracks(seen', selected)
    {
      var event := items[i];
      assert items[..i + 1][..i] == items[..i];
      assert event.id in seen' <==> HasId(selected, event.id) by { TracksAt(seen', selected, event.id); }
      if event.id in seen' {
        continue;
      }
      TracksAppended(seen', selected, event);
      selected := selected + [event];
      seen' := seen' + {event.id};
      if |selected| >= limit {
        RestGrows(items, i + 1, taken);
        CutEarly(selected, taken + Rest(items, taken), limit);
        return;
      }
    }
    assert items[..|items|] == items;
  }

  method SelectSummaryAnalysisEvents(events: seq<Event>, anchorId: Option<int>, limit: int) returns (selected: seq<Event>)
    ensures selected == Take(Dedupe(events, anchorId), limit)
  {
    if limit <= 0 {
      return [];
    }
    var deduped := DedupePreservingOrder(events, anchorId);
    return Take(deduped, limit);
  }
}
