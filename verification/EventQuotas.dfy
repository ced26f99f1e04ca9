/** Which quotas are always met: an exact condition on quotas and limit alone, and how the check
    of the settings falls short of it. */
module EventQuotas {
  import opened Wrappers
  import opened Sequences
  import opened EventSelection
  import opened EventSelectionLaws

  /** The scopes the program writes. */
  ghost predicate InBuckets(events: seq<Event>) {
    forall event :: event in events ==> BucketOf(event).Some?
  }

  function Positive(quota: int): nat {
    if quota > 0 then quota else 0
  }

  /** A bucket without quota, whose event takes a seat when it is the anchor. */
  predicate SomeWithoutQuota(quotas: Quotas) {
    quotas.stock <= 0 || quotas.policy <= 0 || quotas.hot <= 0
  }

  /** The most seats any list of events can need. */
  function Demand(quotas: Quotas): nat {
    Positive(quotas.stock) + Positive(quotas.policy) + Positive(quotas.hot) + if SomeWithoutQuota(quotas) then 1 else 0
  }

  /** What the settings check of quotas and limit. */
  predicate AdmittedBySettings(quotas: Quotas, limit: int) {
    quotas.stock + quotas.policy + quotas.hot <= limit
  }

  lemma {:induction false} SeatsAtMost(ranked: seq<Event>, anchor: Option<Event>, quotas: Quotas)
    ensures Seats(ranked, anchor, quotas)
            <= Positive(quotas.stock) + Positive(quotas.policy) + Positive(quotas.hot) + FreeSeat(anchor, quotas)
  {
    hide Part;
  }

  /** The positive quotas and a seat for an anchor no quota pays for fit: every bucket gets its
      quota, or all it has, whatever the events are. */
  lemma {:induction false} EnoughSeatsAreFair(events: seq<Event>, anchorId: Option<int>, limit: int, quotas: Quotas)
    requires UniqueIds(events) && limit > 0
    requires Positive(quotas.stock) + Positive(quotas.policy) + Positive(quotas.hot) + FreeSeat(Find(events, anchorId), quotas) <= limit
    ensures Fair(Select(events, anchorId, limit, quotas), Ranked(events, anchorId), quotas)
  {
    hide Fair, Select, Ranked, Find, Seats, FreeSeat, UniqueIds;
    SeatsAtMost(Ranked(events, anchorId), Find(events, anchorId), quotas);
    FairIff(events, anchorId, limit, quotas);
  }

  // ---- a list that needs every seat -----------------------------------------------------------------

  function ScopeOf(bucket: Bucket): string {
    match bucket
    case Stock => "stock"
    case Policy => "policy"
    case Hot => "hot"
  }

  lemma {:induction false} ScopeIsOf(bucket: Bucket)
    ensures forall i: nat :: BucketOf(Item(i, bucket)) == Some(bucket)
  {
  }

  /** An event like no other with another number. */
  function Item(i: nat, bucket: Bucket): Event {
    Event(i, "", ScopeOf(bucket), "", "", "", "", Some(i), None, None, 0)
  }

  /** The bucket without quota, if there is one. */
  function Unpaid(quotas: Quotas): Bucket {
    if quotas.stock <= 0 then Stock else if quotas.policy <= 0 then Policy else Hot
  }

  /** Enough stock, policy and hot events for each quota, then one of a bucket without quota. */
  function BucketAt(quotas: Quotas, i: nat): Bucket {
    if i < Positive(quotas.stock) then Stock
    else if i < Positive(quotas.stock) + Positive(quotas.policy) then Policy
    else if i < Positive(quotas.stock) + Positive(quotas.policy) + Positive(quotas.hot) then Hot
    else Unpaid(quotas)
  }

  function Items(quotas: Quotas, n: nat): (events: seq<Event>)
    ensures |events| == n && forall i :: 0 <= i < n ==> events[i] == Item(i, BucketAt(quotas, i))
  {
    seq(n, i requires 0 <= i < n => Item(i, BucketAt(quotas, i)))
  }

  lemma {:induction false} ItemsOf(quotas: Quotas, n: nat, bucket: Bucket, lo: nat, count: nat)
    requires lo + count <= n && forall i :: lo <= i < lo + count ==> BucketAt(quotas, i) == bucket
    ensures forall i :: lo <= i < lo + count ==> Item(i, bucket) in Items(quotas, n)
  {
    forall i | lo <= i < lo + count
      ensures Item(i, bucket) in Items(quotas, n)
    {
      assert Items(quotas, n)[i] == Item(i, BucketAt(quotas, i));
    }
  }

  lemma {:induction false} ItemsAreDistinct(quotas: Quotas, n: nat)
    ensures UniqueIds(Items(quotas, n)) && UniqueKeys(Items(quotas, n), KeyOf) && InBuckets(Items(quotas, n))
  {
    var events := Items(quotas, n);
    forall event | event in events
      ensures BucketOf(event).Some?
    {
      var i :| 0 <= i < n && events[i] == event;
      ScopeIsOf(BucketAt(quotas, i));
    }
    forall i, j | 0 <= i < j < n
      ensures KeyOf(events[i]) != KeyOf(events[j]) && IdOf(events[i]) != IdOf(events[j])
    {
      hide BucketAt;
      assert events[i].publishedAt != events[j].publishedAt;
    }
  }

  /** With distinct logical keys nothing is dropped. */
  lemma {:induction false} NothingDropped(events: seq<Event>, anchorId: Option<int>, event: Event)
    requires UniqueIds(events) && UniqueKeys(events, KeyOf) && event in events
    ensures event in Ranked(events, anchorId)
  {
    var ranked := Ranked(events, anchorId);
    RankedLaws(events, anchorId);
    hide Ranked, UniqueIds, KeyOf;
    assert KeyOf(event) in LogicalKeys(ranked);
    var twin :| twin in ranked && KeyOf(twin) == KeyOf(event);
    var i :| 0 <= i < |events| && events[i] == event;
    var j :| 0 <= j < |events| && events[j] == twin;
    assert i == j;
  }

  function Ids(items: seq<Event>): set<int> {
    set event | event in items :: event.id
  }

  lemma {:induction false} IdsBound(items: seq<Event>)
    ensures |Ids(items)| <= |items|
  {
    if items == [] {
      assert Ids(items) == {};
    } else {
      var init, last := items[..|items| - 1], items[|items| - 1];
      IdsBound(init);
      assert items == init + [last];
      assert Ids(items) == Ids(init) + {last.id};
    }
  }

  /** A bucket whose events have all these numbers has at least as many events. */
  lemma {:induction false} PartAtLeast(events: seq<Event>, anchorId: Option<int>, bucket: Bucket, lo: nat, n: nat)
    requires UniqueIds(events) && UniqueKeys(events, KeyOf)
    requires forall i :: lo <= i < lo + n ==> Item(i, bucket) in events
    ensures |Part(Ranked(events, anchorId), Some(bucket))| >= n
  {
    var ranked := Ranked(events, anchorId);
    var part := Part(ranked, Some(bucket));
    PartItems(ranked, Some(bucket));
    ScopeIsOf(bucket);
    RangeSize(lo, n);
    forall i | i in Range(lo, n)
      ensures i in Ids(part)
    {
      NothingDropped(events, anchorId, Item(i, bucket));
      assert Item(i, bucket) in part;
    }
    hide Ranked, Part;
    IdsBound(part);
    SubsetSize(Range(lo, n), Ids(part));
  }

  lemma {:induction false} SubsetSize(a: set<int>, b: set<int>)
    requires a <= b
    ensures |a| <= |b|
  {
    assert b == a + (b - a);
  }

  /** The list with one event per seat, and its last event as the anchor if no quota pays for it. */
  lemma {:induction false} ItemsNeedAllSeats(quotas: Quotas) returns (events: seq<Event>, anchorId: Option<int>)
    ensures UniqueIds(events) && InBuckets(events)
    ensures Seats(Ranked(events, anchorId), Find(events, anchorId), quotas) >= Demand(quotas)
  {
    var s, p, h := Positive(quotas.stock), Positive(quotas.policy), Positive(quotas.hot);
    var n := Demand(quotas);
    events := Items(quotas, n);
    anchorId := if SomeWithoutQuota(quotas) then Some(n - 1) else None;
    ItemsAreDistinct(quotas, n);
    ItemsOf(quotas, n, Stock, 0, s);
    ItemsOf(quotas, n, Policy, s, p);
    ItemsOf(quotas, n, Hot, s + p, h);
    hide Items, Ranked, UniqueIds, InBuckets;
    PartAtLeast(events, anchorId, Stock, 0, s);
    PartAtLeast(events, anchorId, Policy, s, p);
    PartAtLeast(events, anchorId, Hot, s + p, h);
    assert FreeSeat(Find(events, anchorId), quotas) >= if SomeWithoutQuota(quotas) then 1 else 0 by {
      if SomeWithoutQuota(quotas) { LastIsUnpaid(quotas, events, n); }
    }
    hide Part, Find, FreeSeat;
    EntitledAtLeast(Ranked(events, anchorId), quotas);
  }

  lemma {:induction false} EntitledAtLeast(ranked: seq<Event>, quotas: Quotas)
    requires |Part(ranked, Some(Stock))| >= Positive(quotas.stock)
    requires |Part(ranked, Some(Policy))| >= Positive(quotas.policy)
    requires |Part(ranked, Some(Hot))| >= Positive(quotas.hot)
    ensures Entitled(ranked, quotas, Stock) == Positive(quotas.stock)
    ensures Entitled(ranked, quotas, Policy) == Positive(quotas.policy)
    ensures Entitled(ranked, quotas, Hot) == Positive(quotas.hot)
  {
    hide Part;
  }

  lemma {:induction false} LastIsUnpaid(quotas: Quotas, events: seq<Event>, n: nat)
    requires SomeWithoutQuota(quotas) && n == Demand(quotas) && UniqueIds(events)
    requires |events| == n && forall i :: 0 <= i < n ==> events[i] == Item(i, BucketAt(quotas, i))
    ensures FreeSeat(Find(events, Some(n - 1)), quotas) == 1
  {
    var last := events[n - 1];
    assert last == Item(n - 1, Unpaid(quotas)) && last in events;
    ScopeIsOf(Unpaid(quotas));
    var found := Find(events, Some(n - 1));
    assert found.Some?;
    SameId(events, found.value, last);
  }

  /** Quotas are met for every list of events in the three buckets and every anchor if and only if
      the limit has a seat for each positive quota and, when some bucket has none, one more. */
  lemma {:induction false} AlwaysFairIff(limit: int, quotas: Quotas)
    requires limit > 0
    ensures (forall events, anchorId :: UniqueIds(events) && InBuckets(events) ==>
               Fair(Select(events, anchorId, limit, quotas), Ranked(events, anchorId), quotas))
            <==> Demand(quotas) <= limit
  {
    if Demand(quotas) <= limit {
      forall events, anchorId | UniqueIds(events) && InBuckets(events)
        ensures Fair(Select(events, anchorId, limit, quotas), Ranked(events, anchorId), quotas)
      {
        AnchorInBucket(events, anchorId, quotas);
        EnoughSeatsAreFair(events, anchorId, limit, quotas);
      }
    } else {
      var events, anchorId := ItemsNeedAllSeats(quotas);
      FairIff(events, anchorId, limit, quotas);
    }
  }

  lemma {:induction false} AnchorInBucket(events: seq<Event>, anchorId: Option<int>, quotas: Quotas)
    requires InBuckets(events)
    ensures FreeSeat(Find(events, anchorId), quotas) <= if SomeWithoutQuota(quotas) then 1 else 0
  {
  }

  /** Positive quotas the settings admit are always met. */
  lemma {:induction false} PositiveQuotasAreFair(limit: int, quotas: Quotas)
    requires AdmittedBySettings(quotas, limit) && !SomeWithoutQuota(quotas)
    ensures Demand(quotas) <= limit
  {
  }

  /** Admitted quotas that go unmet: an anchor in a bucket without quota takes the only seat. */
  lemma {:induction false} AnchorStarvesBucket() returns (events: seq<Event>, anchorId: Option<int>)
    ensures AdmittedBySettings(Quotas(1, 0, 0), 1) && UniqueIds(events) && InBuckets(events)
    ensures !Fair(Select(events, anchorId, 1, Quotas(1, 0, 0)), Ranked(events, anchorId), Quotas(1, 0, 0))
  {
    hide Fair, Select, Ranked, Seats, UniqueIds, InBuckets;
    events, anchorId := ItemsNeedAllSeats(Quotas(1, 0, 0));
    FairIff(events, anchorId, 1, Quotas(1, 0, 0));
  }

  /** A negative quota passes the check and lets the others exceed the limit, without any anchor. */
  lemma {:induction false} NegativeQuotaStarvesBucket() returns (events: seq<Event>)
    ensures AdmittedBySettings(Quotas(10, -5, 0), 5) && UniqueIds(events) && InBuckets(events)
    ensures !Fair(Select(events, None, 5, Quotas(10, -5, 0)), Ranked(events, None), Quotas(10, -5, 0))
  {
    var quotas := Quotas(10, -5, 0);
    events := Items(quotas, 10);
    ItemsAreDistinct(quotas, 10);
    ItemsOf(quotas, 10, Stock, 0, 10);
    hide Fair, Select, Ranked, UniqueIds, InBuckets, Items, Part;
    PartAtLeast(events, None, Stock, 0, 10);
    EntitledAtLeast(Ranked(events, None), quotas);
    FairIff(events, None, 5, quotas);
  }
}
