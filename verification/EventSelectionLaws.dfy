/** What the event selection guarantees: a canonical result without logical duplicates, of the
    length it should have, the anchor first, rank prefixes per bucket, and exactly when every
    bucket gets its quota. */
module EventSelectionLaws {
  import opened Wrappers
  import opened Sequences
  import opened EventSelection

  ghost predicate UniqueIds(events: seq<Event>) {
    UniqueKeys(events, IdOf)
  }

  function Part(items: seq<Event>, k: Option<Bucket>): seq<Event> {
    WithKey(items, BucketOf, k)
  }

  function LogicalKeys(events: seq<Event>): set<LogicalKey> {
    set event | event in events :: KeyOf(event)
  }

  // ---- ranking and deduplication -------------------------------------------------------------

  lemma {:induction false} SameId(events: seq<Event>, x: Event, y: Event)
    requires UniqueIds(events) && x in events && y in events && x.id == y.id
    ensures x == y
  {
    var i :| 0 <= i < |events| && events[i] == x;
    var j :| 0 <= j < |events| && events[j] == y;
    assert IdOf(events[i]) == x.id && IdOf(events[j]) == y.id;
  }

  lemma {:induction false} WithoutItems(events: seq<Event>, id: Option<int>)
    ensures forall x :: x in Without(events, id) <==> x in events && id != Some(x.id)
  {
    if events != [] {
      WithoutItems(events[..|events| - 1], id);
      assert events == events[..|events| - 1] + [events[|events| - 1]];
    }
  }

  /** Unique keys are a property of the items, not of their order. */
  lemma {:induction false} UniqueByItems<K>(a: seq<Event>, b: seq<Event>, key: Event -> K)
    requires multiset(a) == multiset(b) && UniqueKeys(a, key)
    ensures UniqueKeys(b, key)
  {
    forall i, j | 0 <= i < j < |b|
      ensures key(b[i]) != key(b[j])
    {
      assert b == b[..i] + [b[i]] + b[i + 1..j] + [b[j]] + b[j + 1..];
      assert b[i] in multiset(a) && b[j] in multiset(a);
      var p :| 0 <= p < |a| && a[p] == b[i];
      var q :| 0 <= q < |a| && a[q] == b[j];
      if p == q {
        assert multiset(b)[b[i]] >= 2;
        OnceEach(a, key, p);
      }
    }
  }

  lemma {:induction false} OnceEach<K>(a: seq<Event>, key: Event -> K, p: nat)
    requires UniqueKeys(a, key) && p < |a|
    ensures multiset(a)[a[p]] == 1
  {
    assert a == a[..p] + [a[p]] + a[p + 1..];
    assert forall i :: 0 <= i < |a| && i != p ==> key(a[i]) != key(a[p]);
    assert a[p] !in a[..p] && a[p] !in a[p + 1..];
  }

  lemma {:induction false} SortedItems(events: seq<Event>, anchor: Option<Event>)
    ensures var sorted := SortDescending(events, Ranking(anchor));
            && multiset(sorted) == multiset(events) && (forall x :: x in sorted <==> x in events)
            && (UniqueIds(events) ==> UniqueIds(sorted))
  {
    SortIsDescendingPermutation(events, Ranking(anchor));
    var sorted := SortDescending(events, Ranking(anchor));
    forall x
      ensures x in sorted <==> x in events
    {
      assert x in multiset(sorted) <==> x in multiset(events);
    }
    if UniqueIds(events) { UniqueByItems(events, sorted, IdOf); }
  }

  /** The anchor is determined by the items. */
  lemma {:induction false} FindByItems(a: seq<Event>, b: seq<Event>, anchorId: Option<int>)
    requires UniqueIds(a) && forall x :: x in a <==> x in b
    ensures Find(a, anchorId) == Find(b, anchorId)
  {
    var x, y := Find(a, anchorId), Find(b, anchorId);
    if x.Some? && y.Some? {
      SameId(a, x.value, y.value);
    }
  }

  lemma {:induction false} HeadStays(items: seq<Event>)
    requires items != []
    ensures DistinctBy(items, KeyOf) != [] && DistinctBy(items, KeyOf)[0] == items[0]
  {
    var init := items[..|items| - 1];
    if init != [] {
      HeadStays(init);
    } else {
      assert DistinctBy(init, KeyOf) == [];
      assert !HasKey<Event, LogicalKey>([], KeyOf, KeyOf(items[0]));
    }
  }

  /** Deduplication keeps exactly the logical keys there are, one event each, the anchor first. */
  lemma {:induction false} DedupeLaws(events: seq<Event>, anchorId: Option<int>)
    requires UniqueIds(events)
    ensures var deduped := Dedupe(events, anchorId);
            && UniqueKeys(deduped, KeyOf) && UniqueIds(deduped)
            && LogicalKeys(deduped) == LogicalKeys(events)
            && (forall x :: x in deduped ==> x in events)
            && (Find(events, anchorId).Some? ==> deduped != [] && deduped[0] == Find(events, anchorId).value)
  {
    var anchor := Find(events, anchorId);
    var input := Listed(anchor) + Without(events, anchorId);
    var deduped := Dedupe(events, anchorId);
    WithoutItems(events, anchorId);
    DistinctByKeys(input, KeyOf);
    forall x
      ensures x in input <==> x in events
    {
      if x in events && anchor.Some? && x.id == anchor.value.id {
        SameId(events, x, anchor.value);
      }
    }
    SameLogicalKeys(deduped, input);
    assert LogicalKeys(input) == LogicalKeys(events);
    forall i, j | 0 <= i < j < |deduped|
      ensures IdOf(deduped[i]) != IdOf(deduped[j])
    {
      if IdOf(deduped[i]) == IdOf(deduped[j]) {
        SameId(events, deduped[i], deduped[j]);
      }
    }
    if anchor.Some? { HeadStays(input); }
  }

  lemma {:induction false} SameLogicalKeys(a: seq<Event>, b: seq<Event>)
    requires forall k :: HasKey(a, KeyOf, k) <==> HasKey(b, KeyOf, k)
    ensures LogicalKeys(a) == LogicalKeys(b)
  {
    forall k
      ensures k in LogicalKeys(a) <==> k in LogicalKeys(b)
    {
      KeysAreListed(a, k);
      KeysAreListed(b, k);
    }
  }

  lemma {:induction false} KeysAreListed(a: seq<Event>, k: LogicalKey)
    ensures k in LogicalKeys(a) <==> HasKey(a, KeyOf, k)
  {
    if k in LogicalKeys(a) {
      var x :| x in a && KeyOf(x) == k;
      var i :| 0 <= i < |a| && a[i] == x;
      assert KeyOf(a[i]) == k;
    }
  }

  lemma {:induction false} CountKeys(items: seq<Event>)
    requires UniqueKeys(items, KeyOf)
    ensures |LogicalKeys(items)| == |items|
  {
    if items == [] {
      assert LogicalKeys(items) == {};
    } else {
      var init, last := items[..|items| - 1], items[|items| - 1];
      CountKeys(init);
      assert items == init + [last];
      assert LogicalKeys(items) == LogicalKeys(init) + {KeyOf(last)};
      assert KeyOf(last) !in LogicalKeys(init);
    }
  }

  /** The ranked and deduplicated candidates. */
  lemma {:induction false} RankedLaws(events: seq<Event>, anchorId: Option<int>)
    requires UniqueIds(events)
    ensures var ranked := Ranked(events, anchorId);
            && UniqueKeys(ranked, KeyOf) && UniqueIds(ranked)
            && LogicalKeys(ranked) == LogicalKeys(events) && |ranked| == |LogicalKeys(events)|
            && (forall x :: x in ranked ==> x in events)
            && (Find(events, anchorId).Some? ==> ranked != [] && ranked[0] == Find(events, anchorId).value)
  {
    var anchor := Find(events, anchorId);
    var sorted := SortDescending(events, Ranking(anchor));
    SortedItems(events, anchor);
    FindByItems(events, sorted, anchorId);
    DedupeLaws(sorted, anchorId);
    CountKeys(Ranked(events, anchorId));
    assert LogicalKeys(sorted) == LogicalKeys(events);
  }

  /** Behind the anchor the candidates are in descending rank. */
  lemma {:induction false} RankedDescends(events: seq<Event>, anchorId: Option<int>)
    requires UniqueIds(events)
    ensures var anchor, ranked := Find(events, anchorId), Ranked(events, anchorId);
            |Listed(anchor)| <= |ranked| && Descending(ranked[|Listed(anchor)|..], Ranking(anchor))
  {
    var anchor := Find(events, anchorId);
    var sorted := SortDescending(events, Ranking(anchor));
    SortedItems(events, anchor);
    FindByItems(events, sorted, anchorId);
    SortIsDescendingPermutation(events, Ranking(anchor));
    WithoutDescends(sorted, anchorId, Ranking(anchor));
    DistinctDescends(anchor, Without(sorted, anchorId), Ranking(anchor));
  }

  lemma {:induction false} DescendsFurther(items: seq<Event>, init: seq<Event>, last: Event, key: Event -> seq<int>)
    requires Descending(items, key) && Descending(init + [last], key) && forall x :: x in items ==> x in init
    ensures Descending(items + [last], key)
  {
    forall i | 0 <= i < |items|
      ensures !LexLess(key(items[i]), key(last))
    {
      assert items[i] in init;
      var j :| 0 <= j < |init| && init[j] == items[i];
      assert !LexLess(key((init + [last])[j]), key((init + [last])[|init|]));
    }
  }

  lemma {:induction false} InitDescends(init: seq<Event>, last: Event, key: Event -> seq<int>)
    requires Descending(init + [last], key)
    ensures Descending(init, key)
  {
    assert forall i :: 0 <= i < |init| ==> (init + [last])[i] == init[i];
  }

  lemma {:induction false} WithoutDescends(events: seq<Event>, id: Option<int>, key: Event -> seq<int>)
    requires Descending(events, key)
    ensures Descending(Without(events, id), key)
  {
    if events != [] {
      var init, last := events[..|events| - 1], events[|events| - 1];
      assert events == init + [last];
      hide LexLess;
      InitDescends(init, last, key);
      WithoutDescends(init, id, key);
      WithoutItems(init, id);
      DescendsFurther(Without(init, id), init, last, key);
    }
  }

  lemma {:induction false} DistinctNext(init: seq<Event>, last: Event)
    ensures var kept := DistinctBy(init, KeyOf);
            DistinctBy(init + [last], KeyOf) == if HasKey(kept, KeyOf, KeyOf(last)) then kept else kept + [last]
  {
    hide KeyOf, HasKey;
    assert (init + [last])[..|init + [last]| - 1] == init;
  }

  lemma {:induction false} NothingDescends(key: Event -> seq<int>)
    ensures Descending([], key)
  {
  }

  lemma {:induction false} DistinctDescends(anchor: Option<Event>, tail: seq<Event>, key: Event -> seq<int>)
    requires Descending(tail, key)
    ensures var n, kept := |Listed(anchor)|, DistinctBy(Listed(anchor) + tail, KeyOf);
            n <= |kept| && kept[..n] == Listed(anchor) && Descending(kept[n..], key) && forall x :: x in kept[n..] ==> x in tail
  {
    hide *;
    var n := |Listed(anchor)|;
    if tail == [] {
      assert Listed(anchor) + tail == Listed(anchor) + [];
      AnchorAlone(anchor);
      NothingDescends(key);
      assert Listed(anchor)[n..] == [];
    } else {
      var init, last := tail[..|tail| - 1], tail[|tail| - 1];
      assert tail == init + [last];
      assert Listed(anchor) + init + [last] == Listed(anchor) + tail;
      InitDescends(init, last, key);
      DistinctDescends(anchor, init, key);
      DistinctNext(Listed(anchor) + init, last);
      var kept := DistinctBy(Listed(anchor) + init, KeyOf);
      DescendsFurther(kept[n..], init, last, key);
      assert (kept + [last])[n..] == kept[n..] + [last] && (kept + [last])[..n] == kept[..n];
    }
  }

  // ---- what is taken from each bucket ----------------------------------------------------------

  function Min(a: int, b: int): int {
    if a < b then a else b
  }

  function Max(a: int, b: int): int {
    if a < b then b else a
  }

  /** At most `room` items from position m on. */
  function Slice(items: seq<Event>, m: nat, room: int): seq<Event> {
    if room <= 0 || |items| <= m then [] else items[m..Min(|items|, m + room)]
  }

  /** Of every bucket, a rank prefix has been taken. */
  ghost predicate TakenInRank(taken: seq<Event>, ranked: seq<Event>) {
    && (forall x :: x in taken ==> x in ranked)
    && forall k :: Part(taken, k) <= Part(ranked, k)
  }

  lemma {:induction false} PartPrefix(items: seq<Event>, ranked: seq<Event>, k: Option<Bucket>)
    requires items <= ranked
    ensures Part(items, k) <= Part(ranked, k)
  {
    assert ranked == items + ranked[|items|..];
    PartConcat(items, ranked[|items|..], k);
  }

  lemma {:induction false} PartNext(init: seq<Event>, last: Event, k: Option<Bucket>)
    ensures Part(init + [last], k) == Part(init, k) + if BucketOf(last) == k then [last] else []
  {
    hide BucketOf;
    assert (init + [last])[..|init + [last]| - 1] == init;
  }

  lemma {:induction false} PartItems(items: seq<Event>, k: Option<Bucket>)
    ensures forall x :: x in Part(items, k) <==> x in items && BucketOf(x) == k
    ensures |Part(items, k)| <= |items|
  {
    WithKeyItems(items, BucketOf, k);
  }

  lemma {:induction false} PartConcat(a: seq<Event>, b: seq<Event>, k: Option<Bucket>)
    ensures Part(a + b, k) == Part(a, k) + Part(b, k)
  {
    WithKeyConcat(a, b, BucketOf, k);
  }

  lemma {:induction false} SliceNext(part: seq<Event>, last: Event, m: nat, room: int)
    ensures Slice(part + [last], m, room)
            == if |part| < m || |Slice(part, m, room)| >= room then Slice(part, m, room) else Slice(part, m, room) + [last]
    ensures forall x :: x in Slice(part, m, room) ==> x in part
  {
    var n := |part|;
    var longer := part + [last];
    if room > 0 && m <= n {
      assert Slice(part, m, room) == part[m..Min(n, m + room)];
      assert |Slice(part, m, room)| == Min(n - m, room);
      if n - m >= room {
        assert longer[m..m + room] == part[m..m + room];
      } else {
        assert longer[m..n + 1] == part[m..n] + [last];
      }
    }
  }

  lemma {:induction false} PicksNext(init: seq<Event>, last: Event, taken: seq<Event>, bucket: Bucket, room: int)
    ensures var picked := Picks(init, taken, bucket, room);
            Picks(init + [last], taken, bucket, room)
            == if HasId(taken + picked, last.id) || BucketOf(last) != Some(bucket) || |picked| >= room then picked
               else picked + [last]
  {
    hide BucketOf, HasId;
    assert (init + [last])[..|init + [last]| - 1] == init;
  }

  lemma {:induction false} RestNext(init: seq<Event>, last: Event, taken: seq<Event>)
    ensures var picked := Rest(init, taken);
            Rest(init + [last], taken) == if HasId(taken + picked, last.id) then picked else picked + [last]
  {
    hide HasId;
    assert (init + [last])[..|init + [last]| - 1] == init;
  }

  /** An event that was taken is in the part of its bucket that was taken. */
  lemma {:induction false} TakenIsBefore(init: seq<Event>, last: Event, ranked: seq<Event>, taken: seq<Event>, x: Event)
    requires init + [last] <= ranked && UniqueIds(ranked) && TakenInRank(taken, ranked) && last !in init
    requires x in taken && x.id == last.id
    ensures |Part(init, BucketOf(last))| < |Part(taken, BucketOf(last))|
  {
    var k := BucketOf(last);
    assert ranked[|init|] == last;
    SameId(ranked, x, last);
    PartItems(taken, k);
    PartItems(init, k);
    PartPrefix(init, ranked, k);
    hide BucketOf, Part;
    assert Part(taken, k) <= Part(ranked, k);
    assert forall q :: 0 <= q < |Part(init, k)| ==> q < |Part(taken, k)| ==> Part(taken, k)[q] == Part(init, k)[q];
    assert forall q :: 0 <= q < |Part(init, k)| ==> Part(init, k)[q] != last;
    var p :| 0 <= p < |Part(taken, k)| && Part(taken, k)[p] == last;
  }

  /** Whether the next candidate has been taken is a matter of its place in its bucket. */
  lemma {:induction false} TakenByPlace(init: seq<Event>, last: Event, ranked: seq<Event>, taken: seq<Event>)
    requires init + [last] <= ranked && UniqueIds(ranked) && TakenInRank(taken, ranked)
    ensures HasId(taken, last.id) <==> |Part(init, BucketOf(last))| < |Part(taken, BucketOf(last))|
    ensures !HasId(init, last.id)
  {
    var k := BucketOf(last);
    assert ranked[|init|] == last;
    assert forall i :: 0 <= i < |init| ==> IdOf(ranked[i]) != IdOf(ranked[|init|]);
    PartNext(init, last, k);
    PartPrefix(init + [last], ranked, k);
    PartItems(taken, k);
    assert Part(taken, k) <= Part(ranked, k) && Part(ranked, k)[|Part(init, k)|] == last;
    hide BucketOf, Part, UniqueIds;
    if |Part(init, k)| < |Part(taken, k)| {
      assert Part(taken, k)[|Part(init, k)|] == last;
      MemberHasId(taken, last);
    }
    if HasId(taken, last.id) {
      var i :| 0 <= i < |taken| && taken[i].id == last.id;
      TakenIsBefore(init, last, ranked, taken, taken[i]);
    }
  }

  lemma {:induction false} HasIdOfConcat(a: seq<Event>, b: seq<Event>, id: int)
    ensures HasId(a + b, id) <==> HasId(a, id) || HasId(b, id)
  {
    var c := a + b;
    if HasId(a, id) {
      var i :| 0 <= i < |a| && a[i].id == id;
      assert c[i].id == id;
    }
    if HasId(b, id) {
      var i :| 0 <= i < |b| && b[i].id == id;
      assert c[|a| + i].id == id;
    }
  }

  lemma {:induction false} MemberHasId(items: seq<Event>, x: Event)
    requires x in items
    ensures HasId(items, x.id)
  {
    var j :| 0 <= j < |items| && items[j] == x;
    assert items[j].id == x.id;
  }

  lemma {:induction false} NoIdOfPart(part: seq<Event>, items: seq<Event>, id: int)
    requires !HasId(items, id) && forall x :: x in part ==> x in items
    ensures !HasId(part, id)
  {
    forall i | 0 <= i < |part|
      ensures part[i].id != id
    {
      assert part[i] in part;
      MemberHasId(items, part[i]);
    }
  }

  /** A bucket's loop takes the next events of the bucket, as many as there is room for. */
  lemma {:induction false} PicksAreNext(items: seq<Event>, ranked: seq<Event>, taken: seq<Event>, bucket: Bucket, room: int)
    requires items <= ranked && UniqueIds(ranked) && TakenInRank(taken, ranked)
    ensures Picks(items, taken, bucket, room) == Slice(Part(items, Some(bucket)), |Part(taken, Some(bucket))|, room)
  {
    if items != [] {
      var init, last, k := items[..|items| - 1], items[|items| - 1], Some(bucket);
      assert items == init + [last];
      hide Picks, Part, BucketOf, HasId, TakenInRank, UniqueIds, Slice;
      PicksAreNext(init, ranked, taken, bucket, room);
      PicksNext(init, last, taken, bucket, room);
      PartNext(init, last, k);
      if BucketOf(last) == k {
        var picked, m := Picks(init, taken, bucket, room), |Part(taken, k)|;
        TakenByPlace(init, last, ranked, taken);
        SliceNext(Part(init, k), last, m, room);
        PartItems(init, k);
        NoIdOfPart(picked, init, last.id);
        HasIdOfConcat(taken, picked, last.id);
      }
    } else {
      assert Part(items, Some(bucket)) == [];
    }
  }

  /** The top-up takes what is left of every bucket. */
  lemma {:induction false} RestIsLeft(items: seq<Event>, ranked: seq<Event>, taken: seq<Event>, k: Option<Bucket>)
    requires items <= ranked && UniqueIds(ranked) && TakenInRank(taken, ranked)
    ensures Part(Rest(items, taken), k) == Slice(Part(items, k), |Part(taken, k)|, |ranked|)
    ensures forall x :: x in Rest(items, taken) ==> x in items
  {
    if items == [] {
      assert Rest(items, taken) == [] && Part(items, k) == [] && Part(Rest(items, taken), k) == [];
    } else {
      var init, last := items[..|items| - 1], items[|items| - 1];
      assert items == init + [last];
      hide Rest, Part, BucketOf, HasId, TakenInRank, UniqueIds, Slice;
      RestIsLeft(init, ranked, taken, k);
      RestNext(init, last, taken);
      var left, m := Rest(init, taken), |Part(taken, k)|;
      TakenByPlace(init, last, ranked, taken);
      NoIdOfPart(left, init, last.id);
      HasIdOfConcat(taken, left, last.id);
      PartNext(left, last, k);
      PartNext(init, last, k);
      PartItems(init, k);
      SliceNext(Part(init, k), last, m, |ranked|);
      assert |Slice(Part(init, k), m, |ranked|)| < |ranked| by { SliceShort(Part(init, k), m, |ranked|); }
    }
  }

  lemma {:induction false} SliceShort(part: seq<Event>, m: nat, room: int)
    ensures |Slice(part, m, room)| <= |part|
  {
  }

  lemma {:induction false} PartOfOne(event: Event, k: Option<Bucket>)
    ensures Part([event], k) == if BucketOf(event) == k then [event] else []
  {
    assert Part([], k) == [];
    assert [] + [event] == [event];
    PartNext([], event, k);
  }

  lemma {:induction false} PartOfPart(items: seq<Event>, k: Option<Bucket>, k': Option<Bucket>)
    requires forall x :: x in items ==> BucketOf(x) == k
    ensures Part(items, k') == if k == k' then items else []
  {
    if items != [] {
      PartOfPart(items[..|items| - 1], k, k');
      assert items == items[..|items| - 1] + [items[|items| - 1]];
    }
  }

  /** How many of the bucket are taken when its loop is over. */
  function Share(ranked: seq<Event>, anchor: Option<Event>, quotas: Quotas, bucket: Bucket): int {
    var used := UsedByAnchor(anchor, bucket);
    Max(used, Min(Quota(quotas, bucket), |Part(ranked, Some(bucket))|))
  }

  function PlaceOf(bucket: Bucket): nat {
    match bucket
    case Stock => 0
    case Policy => 1
    case Hot => 2
  }

  ghost predicate AnchorLeads(ranked: seq<Event>, anchor: Option<Event>) {
    anchor.Some? ==> ranked != [] && ranked[0] == anchor.value
  }

  /** After n buckets: of every bucket a rank prefix, of the length the quota allows. */
  ghost predicate SharesTaken(ranked: seq<Event>, anchor: Option<Event>, quotas: Quotas, n: nat, taken: seq<Event>) {
    && (forall bucket :: |Part(taken, Some(bucket))| == ShareAfter(ranked, anchor, quotas, n, bucket))
    && |Part(taken, None)| == if anchor.Some? && BucketOf(anchor.value).None? then 1 else 0
  }

  function ShareAfter(ranked: seq<Event>, anchor: Option<Event>, quotas: Quotas, n: nat, bucket: Bucket): int {
    if PlaceOf(bucket) < n then Share(ranked, anchor, quotas, bucket) else UsedByAnchor(anchor, bucket)
  }

  /** Everything but the anchor is in a bucket with room beyond the anchor. */
  ghost predicate AllEarned(anchor: Option<Event>, quotas: Quotas, taken: seq<Event>) {
    forall i :: |Listed(anchor)| <= i < |taken| ==> Earned(anchor, quotas, taken[i])
  }

  lemma {:induction false} FilledLaws(ranked: seq<Event>, anchor: Option<Event>, quotas: Quotas, n: nat)
    requires UniqueIds(ranked) && AnchorLeads(ranked, anchor) && n <= |BUCKETS|
    ensures var taken := Filled(ranked, anchor, quotas, n);
            && TakenInRank(taken, ranked) && Listed(anchor) <= taken
            && SharesTaken(ranked, anchor, quotas, n, taken) && AllEarned(anchor, quotas, taken)
  {
    hide *;
    if n == 0 {
      FilledFrom(ranked, anchor, quotas);
      AnchorTaken(ranked, anchor);
      NobodyElse(ranked, anchor, quotas);
    } else {
      FilledLaws(ranked, anchor, quotas, n - 1);
      FilledNext(ranked, anchor, quotas, n - 1);
      var taken, bucket := Filled(ranked, anchor, quotas, n - 1), BUCKETS[n - 1];
      var picks := Picks(ranked, taken, bucket, Quota(quotas, bucket) - UsedByAnchor(anchor, bucket));
      ShareAt(ranked, anchor, quotas, n, taken);
      BucketLaws(ranked, anchor, quotas, n, taken);
      SharesMove(ranked, anchor, quotas, n, taken, taken + picks);
      EarnedMore(anchor, quotas, taken, picks);
    }
  }

  lemma {:induction false} ShareAt(ranked: seq<Event>, anchor: Option<Event>, quotas: Quotas, n: nat, taken: seq<Event>)
    requires 0 < n <= |BUCKETS| && SharesTaken(ranked, anchor, quotas, n - 1, taken)
    ensures |Part(taken, Some(BUCKETS[n - 1]))| == UsedByAnchor(anchor, BUCKETS[n - 1])
  {
    hide Part, UsedByAnchor, Share;
    var bucket := BUCKETS[n - 1];
    assert |Part(taken, Some(bucket))| == ShareAfter(ranked, anchor, quotas, n - 1, bucket);
  }

  lemma {:induction false} EarnedMore(anchor: Option<Event>, quotas: Quotas, taken: seq<Event>, picks: seq<Event>)
    requires AllEarned(anchor, quotas, taken) && forall x :: x in picks ==> Earned(anchor, quotas, x)
    ensures AllEarned(anchor, quotas, taken + picks)
  {
    hide Earned;
    forall i | |Listed(anchor)| <= i < |taken + picks|
      ensures Earned(anchor, quotas, (taken + picks)[i])
    {
      assert i >= |taken| ==> (taken + picks)[i] in picks;
    }
  }

  lemma {:induction false} SharesMove(ranked: seq<Event>, anchor: Option<Event>, quotas: Quotas, n: nat, taken: seq<Event>, taken': seq<Event>)
    requires 0 < n <= |BUCKETS| && SharesTaken(ranked, anchor, quotas, n - 1, taken)
    requires |Part(taken', Some(BUCKETS[n - 1]))| == Share(ranked, anchor, quotas, BUCKETS[n - 1])
    requires forall k :: k != Some(BUCKETS[n - 1]) ==> Part(taken', k) == Part(taken, k)
    ensures SharesTaken(ranked, anchor, quotas, n, taken')
  {
    hide Part, UsedByAnchor, Share, BucketOf;
    forall other: Bucket
      ensures |Part(taken', Some(other))| == ShareAfter(ranked, anchor, quotas, n, other)
    {
      assert |Part(taken, Some(other))| == ShareAfter(ranked, anchor, quotas, n - 1, other);
      assert other != BUCKETS[n - 1] ==> PlaceOf(other) != n - 1;
    }
  }

  /** The event is in a bucket that had room beyond the anchor. */
  predicate Earned(anchor: Option<Event>, quotas: Quotas, event: Event) {
    BucketOf(event).Some? && Quota(quotas, BucketOf(event).value) > UsedByAnchor(anchor, BucketOf(event).value)
  }

  lemma {:induction false} AnchorTaken(ranked: seq<Event>, anchor: Option<Event>)
    requires AnchorLeads(ranked, anchor)
    ensures TakenInRank(Listed(anchor), ranked)
  {
    assert Listed(anchor) <= ranked;
    forall k
      ensures Part(Listed(anchor), k) <= Part(ranked, k)
    {
      PartPrefix(Listed(anchor), ranked, k);
    }
  }

  lemma {:induction false} NobodyElse(ranked: seq<Event>, anchor: Option<Event>, quotas: Quotas)
    ensures SharesTaken(ranked, anchor, quotas, 0, Listed(anchor)) && AllEarned(anchor, quotas, Listed(anchor))
  {
    forall k
      ensures Part(Listed(anchor), k) == if anchor.Some? && BucketOf(anchor.value) == k then [anchor.value] else []
    {
      if anchor.Some? { PartOfOne(anchor.value, k); }
    }
  }

  lemma {:induction false} SliceExtends(part: seq<Event>, taken: seq<Event>, room: int)
    requires taken <= part
    ensures taken + Slice(part, |taken|, room) <= part
    ensures |taken + Slice(part, |taken|, room)| == Max(|taken|, Min(|taken| + room, |part|))
    ensures forall x :: x in Slice(part, |taken|, room) ==> x in part && room > 0
  {
  }

  lemma {:induction false} EarnedWhen(anchor: Option<Event>, quotas: Quotas, x: Event, bucket: Bucket)
    requires BucketOf(x) == Some(bucket) && Quota(quotas, bucket) - UsedByAnchor(anchor, bucket) > 0
    ensures Earned(anchor, quotas, x)
  {
  }

  /** Taking the next events of one bucket keeps all buckets in rank. */
  lemma {:induction false} RankGrows(ranked: seq<Event>, taken: seq<Event>, picks: seq<Event>, k: Option<Bucket>)
    requires TakenInRank(taken, ranked) && Part(taken, k) + picks <= Part(ranked, k)
    requires forall x :: x in picks ==> x in ranked && BucketOf(x) == k
    ensures TakenInRank(taken + picks, ranked) && Part(taken + picks, k) == Part(taken, k) + picks
    ensures forall k' :: k' != k ==> Part(taken + picks, k') == Part(taken, k')
  {
    hide Part, BucketOf;
    forall k': Option<Bucket>
      ensures Part(taken + picks, k') == Part(taken, k') + if k' == k then picks else []
      ensures Part(taken + picks, k') <= Part(ranked, k')
    {
      PartConcat(taken, picks, k');
      PartOfPart(picks, k, k');
      assert Part(taken, k') <= Part(ranked, k');
    }
  }

  lemma {:induction false} BucketLaws(ranked: seq<Event>, anchor: Option<Event>, quotas: Quotas, n: nat, taken: seq<Event>)
    requires UniqueIds(ranked) && 0 < n <= |BUCKETS| && TakenInRank(taken, ranked)
    requires |Part(taken, Some(BUCKETS[n - 1]))| == UsedByAnchor(anchor, BUCKETS[n - 1])
    ensures var bucket := BUCKETS[n - 1];
            var picks := Picks(ranked, taken, bucket, Quota(quotas, bucket) - UsedByAnchor(anchor, bucket));
            && TakenInRank(taken + picks, ranked)
            && |Part(taken + picks, Some(bucket))| == Share(ranked, anchor, quotas, bucket)
            && (forall k :: k != Some(bucket) ==> Part(taken + picks, k) == Part(taken, k))
            && (forall x :: x in picks ==> Earned(anchor, quotas, x))
  {
    var bucket := BUCKETS[n - 1];
    var k, used := Some(bucket), UsedByAnchor(anchor, bucket);
    var room := Quota(quotas, bucket) - used;
    var picks := Picks(ranked, taken, bucket, room);
    assert Share(ranked, anchor, quotas, bucket) == Max(used, Min(used + room, |Part(ranked, k)|)) by { hide Part; }
    assert Part(taken, k) <= Part(ranked, k);
    hide *;
    PicksAreNext(ranked, ranked, taken, bucket, room);
    PartItems(ranked, k);
    SliceExtends(Part(ranked, k), Part(taken, k), room);
    RankGrows(ranked, taken, picks, k);
    forall x | x in picks
      ensures Earned(anchor, quotas, x)
    {
      EarnedWhen(anchor, quotas, x, bucket);
    }
  }

  /** Taking everything in order takes each candidate once. */
  lemma {:induction false} InOrderLaws(ranked: seq<Event>, anchor: Option<Event>, quotas: Quotas)
    requires UniqueIds(ranked) && AnchorLeads(ranked, anchor)
    ensures var all := InOrder(ranked, anchor, quotas);
            && (forall k :: Part(all, k) == Part(ranked, k))
            && multiset(all) == multiset(ranked) && |all| == |ranked|
            && Filled(ranked, anchor, quotas, |BUCKETS|) <= all
  {
    hide *;
    var taken := Filled(ranked, anchor, quotas, |BUCKETS|);
    FilledLaws(ranked, anchor, quotas, |BUCKETS|);
    var all := taken + Rest(ranked, taken);
    assert InOrder(ranked, anchor, quotas) == all by { InOrderIs(ranked, anchor, quotas); }
    forall k
      ensures Part(all, k) == Part(ranked, k)
    {
      WholePart(ranked, taken, k);
    }
    SameParts(all, ranked);
    assert |multiset(all)| == |all| && |multiset(ranked)| == |ranked|;
  }

  lemma {:induction false} InOrderIs(ranked: seq<Event>, anchor: Option<Event>, quotas: Quotas)
    ensures var taken := Filled(ranked, anchor, quotas, |BUCKETS|);
            InOrder(ranked, anchor, quotas) == taken + Rest(ranked, taken)
  {
    hide Filled, Rest;
  }

  lemma {:induction false} WholePart(ranked: seq<Event>, taken: seq<Event>, k: Option<Bucket>)
    requires UniqueIds(ranked) && TakenInRank(taken, ranked)
    ensures Part(taken + Rest(ranked, taken), k) == Part(ranked, k)
  {
    assert Part(taken, k) <= Part(ranked, k);
    hide UniqueIds, TakenInRank, Part, Rest;
    RestIsLeft(ranked, ranked, taken, k);
    PartConcat(taken, Rest(ranked, taken), k);
    PartItems(ranked, k);
  }

  lemma {:induction false} CountInPart(items: seq<Event>, x: Event)
    ensures multiset(items)[x] == multiset(Part(items, BucketOf(x)))[x]
  {
    if items != [] {
      CountInPart(items[..|items| - 1], x);
      assert items == items[..|items| - 1] + [items[|items| - 1]];
    }
  }

  lemma {:induction false} SameParts(a: seq<Event>, b: seq<Event>)
    requires forall k :: Part(a, k) == Part(b, k)
    ensures multiset(a) == multiset(b)
  {
    forall x
      ensures multiset(a)[x] == multiset(b)[x]
    {
      CountInPart(a, x);
      CountInPart(b, x);
    }
  }

  // ---- the main results ------------------------------------------------------------------------

  lemma {:induction false} TakeIsPrefix(items: seq<Event>, limit: int)
    ensures Take(items, limit) <= items
    ensures |Take(items, limit)| == Max(0, Min(limit, |items|))
  {
  }

  lemma {:induction false} PrefixIsUnique(items: seq<Event>, all: seq<Event>)
    requires items <= all && UniqueKeys(all, KeyOf)
    ensures UniqueKeys(items, KeyOf)
  {
    assert forall i :: 0 <= i < |items| ==> items[i] == all[i];
  }

  /** The result has one event per logical key, is as long as the limit or the number of logical
      keys allows, and starts with the anchor whenever it is a candidate. */
  lemma {:induction false} SelectionLaws(events: seq<Event>, anchorId: Option<int>, limit: int, quotas: Quotas)
    requires UniqueIds(events) && limit > 0
    ensures var selected := Select(events, anchorId, limit, quotas);
            && UniqueKeys(selected, KeyOf)
            && |selected| == Min(limit, |LogicalKeys(events)|)
            && (Find(events, anchorId).Some? ==> selected != [] && selected[0] == Find(events, anchorId).value)
  {
    var anchor, ranked := Find(events, anchorId), Ranked(events, anchorId);
    RankedLaws(events, anchorId);
    var all := InOrder(ranked, anchor, quotas);
    hide InOrder, UniqueIds, Find, Ranked, UniqueKeys, KeyOf, LogicalKeys, TakenInRank, SharesTaken, AllEarned, Filled;
    InOrderLaws(ranked, anchor, quotas);
    FilledLaws(ranked, anchor, quotas, |BUCKETS|);
    UniqueByItems(ranked, all, KeyOf);
    TakeIsPrefix(all, limit);
    PrefixIsUnique(Take(all, limit), all);
    assert Listed(anchor) <= all;
    if anchor.Some? { assert Listed(anchor)[0] == all[0]; }
  }

  /** The order of the input does not matter. */
  lemma {:induction false} SelectionIsCanonical(events: seq<Event>, events': seq<Event>, anchorId: Option<int>, limit: int, quotas: Quotas)
    requires UniqueIds(events) && multiset(events) == multiset(events')
    ensures Select(events, anchorId, limit, quotas) == Select(events', anchorId, limit, quotas)
  {
    var anchor := Find(events, anchorId);
    forall x
      ensures x in events <==> x in events'
    {
      assert x in multiset(events) <==> x in multiset(events');
    }
    FindByItems(events, events', anchorId);
    var a, b := SortDescending(events, Ranking(anchor)), SortDescending(events', Ranking(anchor));
    SortIsDescendingPermutation(events, Ranking(anchor));
    SortIsDescendingPermutation(events', Ranking(anchor));
    SortedItems(events, anchor);
    forall i, j | 0 <= i < j < |a|
      ensures Ranking(anchor)(a[i]) != Ranking(anchor)(a[j])
    {
      assert IdOf(a[i]) != IdOf(a[j]);
      assert SortKey(a[i], anchor)[6] != SortKey(a[j], anchor)[6];
    }
    DescendingIsUnique(a, b, Ranking(anchor));
  }

  /** What is selected of a bucket, or of the events without one, is a rank prefix of it. */
  lemma {:induction false} BucketsAreRankPrefixes(events: seq<Event>, anchorId: Option<int>, limit: int, quotas: Quotas, k: Option<Bucket>)
    requires UniqueIds(events)
    ensures Part(Select(events, anchorId, limit, quotas), k) <= Part(Ranked(events, anchorId), k)
  {
    var anchor, ranked := Find(events, anchorId), Ranked(events, anchorId);
    RankedLaws(events, anchorId);
    InOrderLaws(ranked, anchor, quotas);
    var all := InOrder(ranked, anchor, quotas);
    TakeIsPrefix(all, limit);
    PartPrefix(Take(all, limit), all, k);
  }

  // ---- fairness ----------------------------------------------------------------------------------

  /** What the bucket is entitled to: its quota, or all it has. */
  function Entitled(ranked: seq<Event>, quotas: Quotas, bucket: Bucket): int {
    Min(Max(Quota(quotas, bucket), 0), |Part(ranked, Some(bucket))|)
  }

  /** The anchor takes a seat that no quota pays for. */
  function FreeSeat(anchor: Option<Event>, quotas: Quotas): nat {
    if anchor.None? then 0
    else
      match BucketOf(anchor.value)
      case None => 1
      case Some(bucket) => if Quota(quotas, bucket) <= 0 then 1 else 0
  }

  function Seats(ranked: seq<Event>, anchor: Option<Event>, quotas: Quotas): int {
    Entitled(ranked, quotas, Stock) + Entitled(ranked, quotas, Policy) + Entitled(ranked, quotas, Hot) + FreeSeat(anchor, quotas)
  }

  ghost predicate Fair(selected: seq<Event>, ranked: seq<Event>, quotas: Quotas) {
    forall bucket :: |Part(selected, Some(bucket))| >= Entitled(ranked, quotas, bucket)
  }

  lemma {:induction false} PartsAddUp(items: seq<Event>)
    ensures |items| == |Part(items, None)| + |Part(items, Some(Stock))| + |Part(items, Some(Policy))| + |Part(items, Some(Hot))|
  {
    if items != [] {
      PartsAddUp(items[..|items| - 1]);
      var last := items[|items| - 1];
      assert BucketOf(last) in {None, Some(Stock), Some(Policy), Some(Hot)};
    }
  }

  /** The shares of the buckets add up to the seats. */
  lemma {:induction false} SharesAddUp(ranked: seq<Event>, anchor: Option<Event>, quotas: Quotas, taken: seq<Event>)
    requires SharesTaken(ranked, anchor, quotas, |BUCKETS|, taken) && AnchorLeads(ranked, anchor)
    ensures |taken| == Seats(ranked, anchor, quotas)
    ensures forall bucket :: |Part(taken, Some(bucket))| == Share(ranked, anchor, quotas, bucket)
  {
    PartsAddUp(taken);
    assert forall bucket :: |Part(taken, Some(bucket))| == ShareAfter(ranked, anchor, quotas, |BUCKETS|, bucket);
    if anchor.Some? { AnchorInPart(ranked, anchor.value); }
    hide Part;
    ShareOrSeat(ranked, anchor, quotas, Stock);
    ShareOrSeat(ranked, anchor, quotas, Policy);
    ShareOrSeat(ranked, anchor, quotas, Hot);
  }

  lemma {:induction false} ShareOrSeat(ranked: seq<Event>, anchor: Option<Event>, quotas: Quotas, bucket: Bucket)
    requires AnchorLeads(ranked, anchor)
    ensures Share(ranked, anchor, quotas, bucket)
            == Entitled(ranked, quotas, bucket) + if Quota(quotas, bucket) <= 0 then UsedByAnchor(anchor, bucket) else 0
  {
    if anchor.Some? { AnchorInPart(ranked, anchor.value); }
    hide Part;
  }

  lemma {:induction false} AnchorInPart(ranked: seq<Event>, anchor: Event)
    requires ranked != [] && ranked[0] == anchor
    ensures |Part(ranked, BucketOf(anchor))| > 0
  {
    WithKeyItems(ranked, BucketOf, BucketOf(anchor));
    assert anchor in Part(ranked, BucketOf(anchor));
  }

  /** Enough seats: what the buckets took survives the cut. */
  lemma {:induction false} SeatsSuffice(ranked: seq<Event>, anchor: Option<Event>, quotas: Quotas, taken: seq<Event>, selected: seq<Event>)
    requires SharesTaken(ranked, anchor, quotas, |BUCKETS|, taken) && AnchorLeads(ranked, anchor) && taken <= selected
    ensures Fair(selected, ranked, quotas)
  {
    SharesAddUp(ranked, anchor, quotas, taken);
    forall bucket
      ensures |Part(selected, Some(bucket))| >= Entitled(ranked, quotas, bucket)
    {
      PartPrefix(taken, selected, Some(bucket));
      ShareOrSeat(ranked, anchor, quotas, bucket);
    }
  }

  /** Too few seats: the first event cut off is missed by its bucket. */
  lemma {:induction false} SeatsMissed(ranked: seq<Event>, anchor: Option<Event>, quotas: Quotas, taken: seq<Event>, limit: nat)
    requires SharesTaken(ranked, anchor, quotas, |BUCKETS|, taken) && AnchorLeads(ranked, anchor)
    requires AllEarned(anchor, quotas, taken) && 0 < limit < |taken|
    ensures !Fair(taken[..limit], ranked, quotas)
  {
    var missed := taken[limit];
    assert Earned(anchor, quotas, missed);
    var bucket := BucketOf(missed).value;
    hide Fair, SharesTaken, Part, AllEarned;
    SharesAddUp(ranked, anchor, quotas, taken);
    ShareOrSeat(ranked, anchor, quotas, bucket);
    MissedOne(taken, limit);
    MissedIsUnfair(taken[..limit], ranked, quotas, bucket);
  }

  lemma {:induction false} MissedIsUnfair(selected: seq<Event>, ranked: seq<Event>, quotas: Quotas, bucket: Bucket)
    ensures |Part(selected, Some(bucket))| < Entitled(ranked, quotas, bucket) ==> !Fair(selected, ranked, quotas)
  {
  }

  lemma {:induction false} FairIffSeats(ranked: seq<Event>, anchor: Option<Event>, limit: int, quotas: Quotas)
    requires UniqueIds(ranked) && AnchorLeads(ranked, anchor) && limit > 0
    ensures Fair(Take(InOrder(ranked, anchor, quotas), limit), ranked, quotas) <==> Seats(ranked, anchor, quotas) <= limit
  {
    var taken, all := Filled(ranked, anchor, quotas, |BUCKETS|), InOrder(ranked, anchor, quotas);
    hide *;
    InOrderLaws(ranked, anchor, quotas);
    FilledLaws(ranked, anchor, quotas, |BUCKETS|);
    SharesAddUp(ranked, anchor, quotas, taken);
    CutAt(taken, all, limit);
    if |taken| <= limit {
      SeatsSuffice(ranked, anchor, quotas, taken, Take(all, limit));
    } else {
      SeatsMissed(ranked, anchor, quotas, taken, limit);
    }
  }

  lemma {:induction false} CutAt(taken: seq<Event>, all: seq<Event>, limit: int)
    requires taken <= all && limit > 0
    ensures if |taken| <= limit then taken <= Take(all, limit) else Take(all, limit) == taken[..limit]
  {
  }

  /** Every bucket gets its quota, or all it has, exactly when the limit has a seat for each
      entitlement and for an anchor no quota pays for. */
  lemma {:induction false} FairIff(events: seq<Event>, anchorId: Option<int>, limit: int, quotas: Quotas)
    requires UniqueIds(events) && limit > 0
    ensures var ranked := Ranked(events, anchorId);
            Fair(Select(events, anchorId, limit, quotas), ranked, quotas)
            <==> Seats(ranked, Find(events, anchorId), quotas) <= limit
  {
    hide Ranked, Find, UniqueIds, Fair, Seats, InOrder, Take;
    RankedLaws(events, anchorId);
    FairIffSeats(Ranked(events, anchorId), Find(events, anchorId), limit, quotas);
  }

  lemma {:induction false} MissedOne(taken: seq<Event>, limit: nat)
    requires limit < |taken|
    ensures |Part(taken[..limit], BucketOf(taken[limit]))| < |Part(taken, BucketOf(taken[limit]))|
  {
    var k := BucketOf(taken[limit]);
    assert taken == taken[..limit] + taken[limit..];
    WithKeyConcat(taken[..limit], taken[limit..], BucketOf, k);
    WithKeyItems(taken[limit..], BucketOf, k);
    assert taken[limit] in taken[limit..];
    assert taken[limit] in Part(taken[limit..], k);
  }
}
