/** `get_news_rows` as one call performs it: the reads, the wait for the lock with what others
    write meanwhile, the second look, the fetch and the writes in order, on a store the call
    updates. Every path is proved to be a sequence of steps of the news machine. */
module NewsReader {
  import opened Wrappers
  import opened NewsCache
  import opened NewsSteps

  /** Cache and database at one moment. */
  datatype Snapshot = Snapshot(cache: Option<Entry>, rows: Batch, lastFetch: Option<int>)

  /** The fetch fails, persists a batch, or finds nothing new and answers what is stored. */
  datatype Fetch = FetchFails | FetchPersists(batch: Batch) | FetchFindsNothing

  predicate Hits(store: Snapshot, clock: int) {
    store.cache.Some? && clock < store.cache.value.expires
  }

  predicate IsRecent(cfg: Settings, now: int, store: Snapshot) {
    InWindow(cfg, now, store.rows, store.lastFetch)
  }

  /** A batch recorded under an earlier time than the last one stays behind it. */
  predicate IsLatest(store: Snapshot, batch: Batch) {
    store.lastFetch.Some? ==> store.lastFetch.value <= batch.fetchedAt
  }

  // ---- paths of the machine ----------------------------------------------------------------------

  /** The machine is where the store is, and nobody has the lock. */
  predicate Shows(m: State, store: Snapshot, clock: int) {
    m.cache == store.cache && m.rows == store.rows && m.lastFetch == store.lastFetch && m.now == clock && m.owner.None?
  }

  /** From this phase of call c, steps of that call alone lead to this store and this phase. */
  ghost predicate Leads(cfg: Settings, m: State, c: nat, call: Call, store: Snapshot, call': Call) {
    exists actions, m' ::
      && (forall a :: a in actions ==> CallActs(a) && a.c == c)
      && Perform(cfg, Put(m, c, call), actions) == Some(Put(m', c, call')) && Shows(m', store, m.now)
  }

  lemma {:induction false} Led(cfg: Settings, m: State, c: nat, call: Call, store: Snapshot, call': Call, actions: seq<Action>, m': State)
    requires (forall a :: a in actions ==> CallActs(a) && a.c == c)
    requires Perform(cfg, Put(m, c, call), actions) == Some(Put(m', c, call')) && Shows(m', store, m.now)
    ensures Leads(cfg, m, c, call, store, call')
  {
    hide Perform, Put, Shows;
  }

  function Kept(cfg: Settings, store: Snapshot, clock: int, now: int, works: bool): Snapshot {
    if works then store.(cache := Some(Entry(store.rows, clock + cfg.ttl, clock, now))) else store
  }

  /** The first look, as steps of the machine. */
  lemma {:induction false} FirstLook(cfg: Settings, m: State, c: nat, now: int, clock: int, store: Snapshot, works: bool)
    requires Shows(m, store, clock)
    ensures Hits(store, clock) ==>
              Leads(cfg, m, c, Entered(Some(now)), store, Served(store.cache.value.rows, FromCache, clock))
    ensures !Hits(store, clock) && IsRecent(cfg, now, store) ==>
              Leads(cfg, m, c, Entered(Some(now)), Kept(cfg, store, clock, now, works), Served(store.rows, FromDb, clock))
    ensures !Hits(store, clock) && !IsRecent(cfg, now, store) ==> Leads(cfg, m, c, Entered(Some(now)), store, Queueing(now))
  {
    hide Perform, Put;
    if Hits(store, clock) {
      HitSteps(cfg, m, c, now);
      Led(cfg, m, c, Entered(Some(now)), store, Served(store.cache.value.rows, FromCache, clock), [Hit(c)], m);
    } else if IsRecent(cfg, now, store) {
      AnswerSteps(cfg, m, c, now, works);
      Led(cfg, m, c, Entered(Some(now)), Kept(cfg, store, clock, now, works), Served(store.rows, FromDb, clock),
          [Miss(c), Load(c), ReadFetch(c), WriteStep(c, works)], Cached(cfg, m, m.rows, now, works));
    } else {
      LookSteps(cfg, m, c, now);
      Led(cfg, m, c, Entered(Some(now)), store, Queueing(now), [Miss(c), Load(c), ReadFetch(c)], m);
    }
  }

  /** What a call under the lock answers and leaves, on the store it finds. */
  function Outcome(cfg: Settings, now: int, clock: int, store: Snapshot, fetch: Fetch, works: bool): (Snapshot, Call) {
    if Hits(store, clock) then (store, Served(store.cache.value.rows, FromCache, clock))
    else if IsRecent(cfg, now, store) then (Kept(cfg, store, clock, now, works), Served(store.rows, FromDb, clock))
    else
      match fetch
      case FetchFails => (store, if store.rows.size > 0 then Served(store.rows, Fallback, clock) else Raised)
      case FetchPersists(batch) =>
        var stored := if IsLatest(store, batch) then Snapshot(store.cache, batch, Some(batch.fetchedAt)) else store;
        (Kept(cfg, stored, clock, now, works), Served(stored.rows, FromRemote, clock))
      case FetchFindsNothing => (Kept(cfg, store, clock, now, works), Served(store.rows, FromRemote, clock))
  }

  /** The fetch records its batch under the clock or under the call's own `now`. */
  predicate RecordsInTime(fetch: Fetch, now: int, clock: int) {
    fetch.FetchPersists? ==> fetch.batch.fetchedAt == clock || fetch.batch.fetchedAt == now
  }

  /** From the lock to the answer, as steps of the machine. */
  lemma {:induction false} UnderLock(cfg: Settings, m: State, c: nat, now: int, clock: int, store: Snapshot, fetch: Fetch, works: bool)
    requires Shows(m, store, clock) && RecordsInTime(fetch, now, clock)
    ensures var (store', call') := Outcome(cfg, now, clock, store, fetch, works);
            Leads(cfg, m, c, Queueing(now), store', call')
  {
    var (store', call') := Outcome(cfg, now, clock, store, fetch, works);
    hide Perform, Put;
    if Hits(store, clock) {
      LockedHitSteps(cfg, m, c, now);
      Led(cfg, m, c, Queueing(now), store', call', [Acquire(c), Hit(c)], m);
    } else if IsRecent(cfg, now, store) {
      LockedAnswerSteps(cfg, m, c, now, works);
      Led(cfg, m, c, Queueing(now), store', call', LockedLook(c) + [WriteStep(c, works)], Cached(cfg, m, m.rows, now, works));
    } else {
      match fetch
      case FetchFails =>
        FailedSteps(cfg, m, c, now);
        Led(cfg, m, c, Queueing(now), store', call', LockedLook(c) + [NewsCache.Action.FetchFails(c)], m);
      case FetchPersists(batch) =>
        var m' := Recorded(m, batch);
        PersistedSteps(cfg, m, c, now, batch, works);
        Led(cfg, m, c, Queueing(now), store', call',
            LockedLook(c) + [Persist(c, batch.size, batch.fetchedAt)] + [FetchReturns(c)] + [WriteStep(c, works)],
            Cached(cfg, m', m'.rows, now, works));
      case FetchFindsNothing =>
        StoredSteps(cfg, m, c, now, works);
        Led(cfg, m, c, Queueing(now), store', call', LockedLook(c) + [ReturnStored(c)] + [WriteStep(c, works)],
            Cached(cfg, m, m.rows, now, works));
    }
  }

  /** The same from every state of the machine that shows the store, for every call. */
  ghost predicate Passes(cfg: Settings, store: Snapshot, clock: int, call: Call, store': Snapshot, call': Call) {
    forall m, c :: Shows(m, store, clock) ==> Leads(cfg, m, c, call, store', call')
  }

  lemma {:induction false} FirstLookPasses(cfg: Settings, now: int, clock: int, store: Snapshot, works: bool)
    ensures Hits(store, clock) ==>
              Passes(cfg, store, clock, Entered(Some(now)), store, Served(store.cache.value.rows, FromCache, clock))
    ensures !Hits(store, clock) && IsRecent(cfg, now, store) ==>
              Passes(cfg, store, clock, Entered(Some(now)), Kept(cfg, store, clock, now, works), Served(store.rows, FromDb, clock))
    ensures !Hits(store, clock) && !IsRecent(cfg, now, store) ==>
              Passes(cfg, store, clock, Entered(Some(now)), store, Queueing(now))
  {
    hide Leads, Shows;
    forall m, c: nat | Shows(m, store, clock)
      ensures Hits(store, clock) ==>
                Leads(cfg, m, c, Entered(Some(now)), store, Served(store.cache.value.rows, FromCache, clock))
      ensures !Hits(store, clock) && IsRecent(cfg, now, store) ==>
                Leads(cfg, m, c, Entered(Some(now)), Kept(cfg, store, clock, now, works), Served(store.rows, FromDb, clock))
      ensures !Hits(store, clock) && !IsRecent(cfg, now, store) ==> Leads(cfg, m, c, Entered(Some(now)), store, Queueing(now))
    {
      FirstLook(cfg, m, c, now, clock, store, works);
    }
  }

  lemma {:induction false} UnderLockPasses(cfg: Settings, now: int, clock: int, store: Snapshot, fetch: Fetch, works: bool)
    requires RecordsInTime(fetch, now, clock)
    ensures var (store', call') := Outcome(cfg, now, clock, store, fetch, works);
            Passes(cfg, store, clock, Queueing(now), store', call')
  {
    hide Leads, Shows, Outcome;
    var (store', call') := Outcome(cfg, now, clock, store, fetch, works);
    forall m, c: nat | Shows(m, store, clock)
      ensures Leads(cfg, m, c, Queueing(now), store', call')
    {
      UnderLock(cfg, m, c, now, clock, store, fetch, works);
    }
  }

  class NewsStore {
    var cache: Option<Entry>
    var rows: Batch
    var lastFetch: Option<int>

    constructor ()
      ensures Value() == Snapshot(None, Batch(0, 0), None)
    {
      cache, rows, lastFetch := None, Batch(0, 0), None;
    }

    function Value(): Snapshot
      reads this
    {
      Snapshot(cache, rows, lastFetch)
    }

    /** A cache write may fail; the rows are served all the same. */
    method WriteCache(cfg: Settings, batch: Batch, now: int, clock: int, works: bool)
      modifies this`cache
      ensures cache == if works then Some(Entry(batch, clock + cfg.ttl, clock, now)) else old(cache)
    {
      if works {
        cache := Some(Entry(batch, clock + cfg.ttl, clock, now));
      }
    }

    /** The look at cache and database, made once without and once with the lock. */
    method Look(cfg: Settings, now: int, clock: int, cacheWorks: bool) returns (answer: Option<(Batch, Origin)>)
      modifies this`cache
      ensures answer == if Hits(old(Value()), clock) then Some((old(cache).value.rows, FromCache))
                        else if IsRecent(cfg, now, old(Value())) then Some((old(rows), FromDb)) else None
      ensures cache == if answer.Some? && answer.value.1 == FromDb && cacheWorks
                       then Some(Entry(old(rows), clock + cfg.ttl, clock, now)) else old(cache)
    {
      if cache.Some? && clock < cache.value.expires {
        return Some((cache.value.rows, FromCache));
      }
      if InWindow(cfg, now, rows, lastFetch) {
        WriteCache(cfg, rows, now, clock, cacheWorks);
        return Some((rows, FromDb));
      }
      return None;
    }

    /** `meanwhile` is what the store holds when the lock is taken, at time `later`; no answer means
        that the failure of the fetch is raised. */
    method GetNewsRows(cfg: Settings, now: int, clock: int, meanwhile: Snapshot, later: int, fetch: Fetch, cacheWorks: bool)
        returns (answer: Option<Batch>, origin: Origin, asked: bool)
      modifies this
      // the lock is waited for exactly when the first look finds nothing, the remote asked when the second does not either
      ensures asked <==>
        && (old(cache).Some? ==> clock >= old(cache).value.expires)
        && !(old(rows).size > 0 && old(lastFetch).Some? && now - old(lastFetch).value <= cfg.window)
        && (meanwhile.cache.Some? ==> later >= meanwhile.cache.value.expires)
        && !(meanwhile.rows.size > 0 && meanwhile.lastFetch.Some? && now - meanwhile.lastFetch.value <= cfg.window)
      // an answer from the cache is one from an entry that has not expired, one from the database lies in the window
      ensures origin == FromCache ==>
        || (old(cache).Some? && clock < old(cache).value.expires && answer == Some(old(cache).value.rows))
        || (meanwhile.cache.Some? && later < meanwhile.cache.value.expires && answer == Some(meanwhile.cache.value.rows))
      ensures origin == FromDb ==>
        || (old(lastFetch).Some? && now - old(lastFetch).value <= cfg.window && answer == Some(old(rows)))
        || (meanwhile.lastFetch.Some? && now - meanwhile.lastFetch.value <= cfg.window && answer == Some(meanwhile.rows))
      // every path is one of the machine
      ensures var waits := !Hits(old(Value()), clock) && !IsRecent(cfg, now, old(Value()));
        && (waits ==> Passes(cfg, old(Value()), clock, Entered(Some(now)), old(Value()), Queueing(now)))
        && (!waits ==> answer.Some? && Passes(cfg, old(Value()), clock, Entered(Some(now)), Value(), Served(answer.value, origin, clock)))
        && (waits && RecordsInTime(fetch, now, later) ==>
              Passes(cfg, meanwhile, later, Queueing(now), Value(), if answer.Some? then Served(answer.value, origin, later) else Raised))
      // the first look
      ensures Hits(old(Value()), clock) ==>
        answer == Some(old(cache).value.rows) && origin == FromCache && Value() == old(Value())
      ensures !Hits(old(Value()), clock) && IsRecent(cfg, now, old(Value())) ==>
        && answer == Some(old(rows)) && origin == FromDb && rows == old(rows) && lastFetch == old(lastFetch)
        && cache == if cacheWorks then Some(Entry(old(rows), clock + cfg.ttl, clock, now)) else old(cache)
      // the second look, on what others have written
      ensures !asked && !Hits(old(Value()), clock) && !IsRecent(cfg, now, old(Value())) ==>
        && rows == meanwhile.rows && lastFetch == meanwhile.lastFetch
        && (Hits(meanwhile, later) ==>
              answer == Some(meanwhile.cache.value.rows) && origin == FromCache && cache == meanwhile.cache)
        && (!Hits(meanwhile, later) ==>
              && answer == Some(meanwhile.rows) && origin == FromDb
              && cache == if cacheWorks then Some(Entry(meanwhile.rows, later + cfg.ttl, later, now)) else meanwhile.cache)
      // a fetch that works is answered from the store, which shows its batch unless a later one is there
      ensures asked && !fetch.FetchFails? ==>
        && answer == Some(rows) && origin == FromRemote
        && cache == if cacheWorks then Some(Entry(rows, later + cfg.ttl, later, now)) else meanwhile.cache
      ensures asked && fetch.FetchPersists? && IsLatest(meanwhile, fetch.batch) ==>
        rows == fetch.batch && lastFetch == Some(fetch.batch.fetchedAt)
      ensures asked && !(fetch.FetchPersists? && IsLatest(meanwhile, fetch.batch)) ==>
        rows == meanwhile.rows && lastFetch == meanwhile.lastFetch
      // one that fails answers the rows of the second look if there are any, and never writes the cache
      ensures asked && fetch.FetchFails? ==>
        cache == meanwhile.cache && origin == Fallback && answer == if meanwhile.rows.size > 0 then Some(meanwhile.rows) else None
    {
      FirstLookPasses(cfg, now, clock, Value(), cacheWorks);
      if RecordsInTime(fetch, now, later) {
        UnderLockPasses(cfg, now, later, meanwhile, fetch, cacheWorks);
      }
      hide Passes;
      var first := Look(cfg, now, clock, cacheWorks);
      if first.Some? {
        return Some(first.value.0), first.value.1, false;
      }
      cache, rows, lastFetch := meanwhile.cache, meanwhile.rows, meanwhile.lastFetch;
      var second := Look(cfg, now, later, cacheWorks);
      if second.Some? {
        return Some(second.value.0), second.value.1, false;
      }
      var stored := rows;
      match fetch
      case FetchFails =>
        return if stored.size > 0 then Some(stored) else None, Fallback, true;
      case FetchPersists(batch) =>
        if lastFetch.None? || lastFetch.value <= batch.fetchedAt {
          rows, lastFetch := batch, Some(batch.fetchedAt);
        }
        WriteCache(cfg, rows, now, later, cacheWorks);
        return Some(rows), FromRemote, true;
      case FetchFindsNothing =>
        WriteCache(cfg, rows, now, later, cacheWorks);
        return Some(rows), FromRemote, true;
    }

    /** A second call within the window of a fetch that found rows does not fetch again, whether or
        not the first could write the cache, as long as nobody empties the rows. */
    method TwoCalls(cfg: Settings, now: int, clock: int, batch: Batch, cacheWorks: bool,
                    now': int, clock': int, meanwhile': Snapshot, later': int, fetch': Fetch)
        returns (asked: bool)
      requires batch.size > 0 && now' - batch.fetchedAt <= cfg.window
      requires !Hits(Value(), clock) && !IsRecent(cfg, now, Value()) && IsLatest(Value(), batch)
      modifies this
      ensures !asked && rows == batch && lastFetch == Some(batch.fetchedAt)
    {
      var first, origin, again := GetNewsRows(cfg, now, clock, Value(), clock, FetchPersists(batch), cacheWorks);
      first, origin, asked := GetNewsRows(cfg, now', clock', meanwhile', later', fetch', cacheWorks);
    }
  }
}
