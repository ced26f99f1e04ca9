/** `get_news_rows` (news_cache_service.py): any number of calls on one cache key over a cache
    with a time to live, a database and a remote that may fail. Every await is one step. The
    database is shared with calls on other keys, which persist batches of their own. */
module NewsCache {
  import opened Wrappers

  /** What a load returns: the rows of the latest fetch, recorded under its time. */
  datatype Batch = Batch(fetchedAt: int, size: nat)

  /** `basis` is the `now` of the call that wrote the entry. */
  datatype Entry = Entry(rows: Batch, expires: int, wroteAt: int, basis: int)

  datatype Origin = FromCache | FromDb | FromRemote | Fallback

  /** `seen` is the fetch on record when the rows were loaded; the call itself reads the record
      later. */
  datatype Call =
    | Entered(given: Option<int>)
    | Resolved(now: int)
    | Loaded(now: int, rows: Batch, seen: Option<int>)
    | Fresh(now: int, rows: Batch)
    | Queueing(now: int)
    | Locked(now: int)
    | Rechecked(now: int)
    | Reloaded(now: int, rows: Batch, seen: Option<int>)
    | FreshLocked(now: int, rows: Batch)
    | Fetching(now: int, stored: Batch, since: int)
    | Persisted(now: int, stored: Batch, since: int)
    | Returned(now: int, rows: Batch)
    | Served(rows: Batch, origin: Origin, at: int)
    | Raised

  datatype State = State(now: int, cache: Option<Entry>, rows: Batch, lastFetch: Option<int>,
                         owner: Option<nat>, calls: map<nat, Call>)

  datatype Settings = Settings(ttl: nat, window: nat)

  datatype Action =
    | Tick(to: int)
    | Start(c: nat, given: Option<int>)
    | Hit(c: nat)
    | Miss(c: nat)
    | Load(c: nat)
    | ReadFetch(c: nat)
    | Write(c: nat)
    | WriteFails(c: nat)
    | Acquire(c: nat)
    | Persist(c: nat, size: nat, at: int)
    | FetchReturns(c: nat)
    | ReturnStored(c: nat)
    | FetchFails(c: nat)
    | OtherPersist(size: nat, at: int)

  // ---- steps -----------------------------------------------------------------------------------

  /** Rows there are, their fetch is recorded, and it lies within the refresh window. */
  predicate InWindow(cfg: Settings, now: int, rows: Batch, lastFetch: Option<int>) {
    rows.size > 0 && lastFetch.Some? && now - lastFetch.value <= cfg.window
  }

  predicate CanHit(s: State) {
    s.cache.Some? && s.now < s.cache.value.expires
  }

  /** The call is between taking and releasing the lock. */
  predicate Holds(call: Call) {
    call.Locked? || call.Rechecked? || call.Reloaded? || call.FreshLocked? || call.Fetching? || call.Persisted? || call.Returned?
  }

  predicate IsFetching(call: Call) {
    call.Fetching? || call.Persisted?
  }

  predicate CallActs(a: Action) {
    !a.Tick? && !a.Start? && !a.OtherPersist?
  }

  /** The next phase of the acting call and the shared state it leaves; None when not enabled. */
  function Advance(cfg: Settings, s: State, call: Call, a: Action): Option<(Call, State)> {
    match a
    case Hit(_) =>
      if CanHit(s) && (call.Entered? || call.Locked?) then
        Some((Served(s.cache.value.rows, FromCache, s.now), s))
      else None
    case Miss(_) =>
      if call.Entered? then Some((Resolved(call.given.GetOr(s.now)), s))
      else if call.Locked? then Some((Rechecked(call.now), s))
      else None
    case Load(_) =>
      if call.Resolved? then Some((Loaded(call.now, s.rows, s.lastFetch), s))
      else if call.Rechecked? then Some((Reloaded(call.now, s.rows, s.lastFetch), s))
      else None
    case ReadFetch(_) =>
      if call.Loaded? then
        Some((if InWindow(cfg, call.now, call.rows, s.lastFetch)
              then Fresh(call.now, call.rows) else Queueing(call.now), s))
      else if call.Reloaded? then
        Some((if InWindow(cfg, call.now, call.rows, s.lastFetch)
              then FreshLocked(call.now, call.rows)
              else Fetching(call.now, call.rows, s.now), s))
      else None
    case Write(_) =>
      if call.Fresh? || call.FreshLocked? then
        Some((Served(call.rows, FromDb, s.now),
              s.(cache := Some(Entry(call.rows, s.now + cfg.ttl, s.now, call.now)))))
      else if call.Returned? then
        Some((Served(call.rows, FromRemote, s.now),
              s.(cache := Some(Entry(call.rows, s.now + cfg.ttl, s.now, call.now)))))
      else None
    case WriteFails(_) =>
      if call.Fresh? || call.FreshLocked? then Some((Served(call.rows, FromDb, s.now), s))
      else if call.Returned? then Some((Served(call.rows, FromRemote, s.now), s))
      else None
    case Acquire(c) =>
      if call.Queueing? && s.owner.None? then Some((Locked(call.now), s.(owner := Some(c)))) else None
    case Persist(_, size, at) =>
      if call.Fetching? && RecordsAs(s, call, at) then
        Some((Persisted(call.now, call.stored, call.since), Recorded(s, Batch(at, size))))
      else None
    case FetchReturns(_) =>
      if call.Persisted? then Some((Returned(call.now, s.rows), s)) else None
    case ReturnStored(_) =>
      if call.Fetching? then Some((Returned(call.now, s.rows), s)) else None
    case FetchFails(_) =>
      if IsFetching(call) then
        Some((if call.stored.size > 0 then Served(call.stored, Fallback, s.now) else Raised, s))
      else None
    case _ => None
  }

  /** A fetch is recorded under the clock during the fetch, or under the `now` of the call. */
  predicate RecordsAs(s: State, call: Call, at: int)
    requires call.Fetching?
  {
    call.since <= at <= s.now || at == call.now
  }

  /** Loads see the batch with the latest time; one recorded under an earlier time stays behind it. */
  function Recorded(s: State, batch: Batch): State {
    if s.lastFetch.Some? && batch.fetchedAt < s.lastFetch.value then s
    else s.(rows := batch, lastFetch := Some(batch.fetchedAt))
  }

  /** Leaving the `async with` block releases the lock in the same step. */
  function Released(call: Call, next: Call, s: State): State {
    if Holds(call) && !Holds(next) then s.(owner := None) else s
  }

  predicate Next(cfg: Settings, s: State, a: Action, s': State) {
    match a
    case Tick(to) => s.now <= to && s' == s.(now := to)
    case Start(c, given) => c !in s.calls && s' == s.(calls := s.calls[c := Entered(given)])
    case OtherPersist(size, at) => s' == Recorded(s, Batch(at, size))
    case _ =>
      && a.c in s.calls
      && var out := Advance(cfg, s, s.calls[a.c], a);
         out.Some? && s' == Released(s.calls[a.c], out.value.0, out.value.1).(calls := s.calls[a.c := out.value.0])
  }

  predicate Init(s: State) {
    s.cache.None? && s.rows == Batch(0, 0) && s.lastFetch.None? && s.owner.None? && s.calls == map[]
  }

  ghost predicate Steps(cfg: Settings, states: seq<State>, actions: seq<Action>) {
    && |states| == |actions| + 1
    && forall i :: 0 <= i < |actions| ==> Next(cfg, states[i], actions[i], states[i + 1])
  }

  ghost predicate Run(cfg: Settings, states: seq<State>, actions: seq<Action>) {
    Steps(cfg, states, actions) && Init(states[0])
  }

  /** Step i is where a call decides to go to the remote. */
  predicate StartsFetch(states: seq<State>, actions: seq<Action>, i: nat) {
    && i < |actions| && i + 1 < |states| && actions[i].ReadFetch?
    && actions[i].c in states[i].calls && actions[i].c in states[i + 1].calls
    && states[i].calls[actions[i].c].Reloaded? && states[i + 1].calls[actions[i].c].Fetching?
  }

  // ---- one call at a time holds the lock ---------------------------------------------------------

  ghost predicate LockInv(s: State) {
    && (forall c :: c in s.calls && Holds(s.calls[c]) ==> s.owner == Some(c))
    && (s.owner.Some? ==> s.owner.value in s.calls && Holds(s.calls[s.owner.value]))
  }

  lemma {:induction false} LockStep(cfg: Settings, s: State, a: Action, s': State)
    requires Next(cfg, s, a, s') && LockInv(s)
    ensures LockInv(s')
  {
    if CallActs(a) {
      var call := s.calls[a.c];
      var out := Advance(cfg, s, call, a).value;
      assert s'.calls == s.calls[a.c := out.0];
      assert s'.owner == if Holds(call) && !Holds(out.0) then None else out.1.owner;
      Handover(cfg, s, call, a);
    }
  }

  /** A phase change takes the lock only by acquiring it. */
  lemma {:induction false} Handover(cfg: Settings, s: State, call: Call, a: Action)
    requires Advance(cfg, s, call, a).Some?
    ensures var out := Advance(cfg, s, call, a).value;
            && (a.Acquire? ==> s.owner.None? && !Holds(call) && Holds(out.0) && out.1.owner == Some(a.c))
            && (!a.Acquire? ==> out.1.owner == s.owner && (Holds(out.0) ==> Holds(call)))
  {
  }

  lemma {:induction false} AlwaysLocked(cfg: Settings, states: seq<State>, actions: seq<Action>, i: nat)
    requires Run(cfg, states, actions) && i < |states|
    ensures LockInv(states[i])
  {
    if i > 0 {
      hide Next;
      AlwaysLocked(cfg, states, actions, i - 1);
      assert Next(cfg, states[i - 1], actions[i - 1], states[i - 1 + 1]);
      LockStep(cfg, states[i - 1], actions[i - 1], states[i]);
    }
  }

  /** At most one call at a time is at the remote. */
  lemma {:induction false} OneFetchAtATime(cfg: Settings, states: seq<State>, actions: seq<Action>, i: nat, c: nat, d: nat)
    requires Run(cfg, states, actions) && i < |states|
    requires c in states[i].calls && d in states[i].calls && IsFetching(states[i].calls[c]) && IsFetching(states[i].calls[d])
    ensures c == d
  {
    hide Next;
    AlwaysLocked(cfg, states, actions, i);
  }

  // ---- single flight -----------------------------------------------------------------------------

  /** Non-empty rows with a record of at least `since` are stored, and whoever has re-read the
      rows under the lock saw such. */
  ghost predicate Stored(s: State, since: int) {
    && s.rows.size > 0 && s.lastFetch.Some? && since <= s.lastFetch.value
    && forall c :: c in s.calls && s.calls[c].Reloaded? ==> s.calls[c].rows.size > 0
  }

  lemma {:induction false} StoredStep(cfg: Settings, s: State, a: Action, s': State, since: int)
    requires Next(cfg, s, a, s') && Stored(s, since) && s'.rows.size > 0
    ensures Stored(s', since)
  {
    if CallActs(a) {
      var call := s.calls[a.c];
      var out := Advance(cfg, s, call, a).value;
      assert out.0.Reloaded? ==> out.0.rows == s.rows;
    }
  }

  lemma {:induction false} PersistStores(cfg: Settings, s: State, a: Action, s': State)
    requires Next(cfg, s, a, s') && LockInv(s) && a.Persist? && s'.rows.size > 0
    ensures Stored(s', a.at)
  {
    assert Holds(s.calls[a.c]);
    assert forall c :: c in s'.calls ==> c == a.c || !Holds(s'.calls[c]);
  }

  /** The key has rows from step i on, up to step j. */
  predicate HasRows(states: seq<State>, i: nat, j: nat)
    requires j < |states|
  {
    forall k :: i < k <= j ==> states[k].rows.size > 0
  }

  lemma {:induction false} StaysStored(cfg: Settings, states: seq<State>, actions: seq<Action>, i: nat, j: nat)
    requires Run(cfg, states, actions) && i < j < |states| && actions[i].Persist? && HasRows(states, i, j)
    ensures Stored(states[j], actions[i].at)
    decreases j
  {
    hide Next, Stored;
    if j == i + 1 {
      assert Next(cfg, states[i], actions[i], states[i + 1]);
      AlwaysLocked(cfg, states, actions, i);
      PersistStores(cfg, states[i], actions[i], states[j]);
    } else {
      StaysStored(cfg, states, actions, i, j - 1);
      assert Next(cfg, states[j - 1], actions[j - 1], states[j - 1 + 1]);
      StoredStep(cfg, states[j - 1], actions[j - 1], states[j], actions[i].at);
    }
  }

  lemma {:induction false} RecordStep(cfg: Settings, s: State, a: Action, s': State)
    requires Next(cfg, s, a, s')
    ensures s.lastFetch.Some? ==> s'.lastFetch.Some? && s.lastFetch.value <= s'.lastFetch.value
    ensures a.Persist? ==> s'.lastFetch.Some? && a.at <= s'.lastFetch.value
  {
  }

  /** Once a fetch has persisted there is a record, and it never falls behind that fetch. */
  lemma {:induction false} StaysRecorded(cfg: Settings, states: seq<State>, actions: seq<Action>, i: nat, j: nat)
    requires Run(cfg, states, actions) && i < j < |states| && actions[i].Persist?
    ensures states[j].lastFetch.Some? && actions[i].at <= states[j].lastFetch.value
    decreases j
  {
    hide Next;
    if i + 1 < j { StaysRecorded(cfg, states, actions, i, j - 1); }
    assert Next(cfg, states[j - 1], actions[j - 1], states[j - 1 + 1]);
    RecordStep(cfg, states[j - 1], actions[j - 1], states[j]);
  }

  /** When a call that has looked again under the lock goes to the remote, after a fetch has
      persisted: exactly when its look found the key without rows, or its `now` is more than the
      window past the record, which is at least that fetch. */
  lemma {:induction false} RefetchIff(cfg: Settings, states: seq<State>, actions: seq<Action>, i: nat, j: nat, c: nat)
    requires Run(cfg, states, actions) && i < j < |actions| && actions[i].Persist?
    requires actions[j] == ReadFetch(c) && c in states[j].calls && states[j].calls[c].Reloaded?
    ensures states[j].lastFetch.Some? && actions[i].at <= states[j].lastFetch.value
    ensures var call, past := states[j].calls[c], states[j].calls[c].now - states[j].lastFetch.value > cfg.window;
            && (StartsFetch(states, actions, j) <==> call.rows.size == 0 || past)
            && ((StartsFetch(states, actions, j) ==> past) <==> call.rows.size > 0 || past)
  {
    StaysRecorded(cfg, states, actions, i, j);
    assert Next(cfg, states[j], actions[j], states[j + 1]);
  }

  /** Single flight, for any `now` a call is given: once a fetch has persisted, a call whose look
      under the lock finds rows goes to the remote only if its own `now` is more than the refresh
      window past the recorded fetch time, which is at least the time of that fetch. */
  lemma {:induction false} SingleFlight(cfg: Settings, states: seq<State>, actions: seq<Action>, i: nat, j: nat)
    requires Run(cfg, states, actions) && i < j < |actions| && actions[i].Persist?
    requires StartsFetch(states, actions, j) && states[j].calls[actions[j].c].rows.size > 0
    ensures states[j].lastFetch.Some? && states[j].lastFetch.value >= actions[i].at
    ensures states[j].calls[actions[j].c].now - states[j].lastFetch.value > cfg.window
  {
    RefetchIff(cfg, states, actions, i, j, actions[j].c);
  }

  /** The clock never runs back, and no call is ahead of it. */
  ghost predicate Honest(s: State) {
    forall c :: c in s.calls ==> HonestCall(s.now, s.calls[c])
  }

  predicate HonestCall(now: int, call: Call) {
    && (call.Entered? && call.given.Some? ==> call.given.value <= now)
    && (call.Resolved? || call.Loaded? || call.Fresh? || call.Queueing? || Holds(call) ==> call.now <= now)
    && (IsFetching(call) ==> call.now <= call.since <= now)
  }

  /** The given `now` is the clock at the call or earlier. */
  predicate GivenInTime(s: State, a: Action) {
    a.Start? && a.given.Some? ==> a.given.value <= s.now
  }

  lemma {:induction false} AdvanceHonest(cfg: Settings, s: State, call: Call, a: Action)
    requires Advance(cfg, s, call, a).Some? && HonestCall(s.now, call)
    ensures HonestCall(s.now, Advance(cfg, s, call, a).value.0) && Advance(cfg, s, call, a).value.1.now == s.now
  {
  }

  lemma {:induction false} HonestStep(cfg: Settings, s: State, a: Action, s': State)
    requires Next(cfg, s, a, s') && Honest(s) && GivenInTime(s, a)
    ensures Honest(s')
  {
    if CallActs(a) {
      AdvanceHonest(cfg, s, s.calls[a.c], a);
      hide Advance;
    }
    forall c | c in s'.calls
      ensures HonestCall(s'.now, s'.calls[c])
    {
      assert c in s.calls ==> HonestCall(s.now, s.calls[c]);
    }
  }

  lemma {:induction false} AlwaysHonest(cfg: Settings, states: seq<State>, actions: seq<Action>, i: nat)
    requires Run(cfg, states, actions) && i < |states|
    requires forall k :: 0 <= k < |actions| ==> GivenInTime(states[k], actions[k])
    ensures Honest(states[i])
  {
    if i > 0 {
      hide Next, Honest;
      AlwaysHonest(cfg, states, actions, i - 1);
      assert Next(cfg, states[i - 1], actions[i - 1], states[i - 1 + 1]) && GivenInTime(states[i - 1], actions[i - 1]);
      HonestStep(cfg, states[i - 1], actions[i - 1], states[i]);
    } else {
      HonestAtStart(states[0]);
    }
  }

  lemma {:induction false} HonestAtStart(s: State)
    requires s.calls == map[]
    ensures Honest(s)
  {
  }

  /** With calls that read the clock no later than they act: of two fetches of the key, the later
      is recorded more than the refresh window after the earlier if the look its call took under
      the lock, step k, found rows; it did if the key had rows all the time in between. */
  lemma {:induction false} FetchesAreSpaced(cfg: Settings, states: seq<State>, actions: seq<Action>, i: nat, j: nat) returns (k: nat)
    requires Run(cfg, states, actions) && i < j < |actions|
    requires actions[i].Persist? && actions[j].Persist?
    requires forall k :: 0 <= k < |actions| ==> GivenInTime(states[k], actions[k])
    ensures i < k < j && StartsFetch(states, actions, k) && actions[k].c == actions[j].c
    ensures states[k].calls[actions[k].c].rows.size > 0 ==> actions[j].at - actions[i].at > cfg.window
    ensures HasRows(states, i, j) ==> states[k].calls[actions[k].c].rows.size > 0
  {
    var c := actions[j].c;
    assert Next(cfg, states[j], actions[j], states[j + 1]);
    assert states[j].calls[c].Fetching?;
    k := FetchStartedAfter(cfg, states, actions, i, j, c);
    if states[k].calls[c].rows.size > 0 {
      SingleFlight(cfg, states, actions, i, k);
    }
    if HasRows(states, i, j) {
      StaysStored(cfg, states, actions, i, k);
    }
    AlwaysHonest(cfg, states, actions, j);
    assert HonestCall(states[j].now, states[j].calls[c]);
  }

  /** A call at the remote after another call persisted started its fetch after that. */
  lemma {:induction false} FetchStartedAfter(cfg: Settings, states: seq<State>, actions: seq<Action>, i: nat, j: nat, c: nat)
      returns (k: nat)
    requires Run(cfg, states, actions) && i < j < |states|
    requires actions[i].Persist? && c in states[j].calls && states[j].calls[c].Fetching?
    ensures i < k < j && StartsFetch(states, actions, k) && actions[k].c == c
    ensures states[k].calls[c].now == states[j].calls[c].now
    decreases j
  {
    var s, a, s' := states[j - 1], actions[j - 1], states[j];
    assert Next(cfg, s, a, states[j - 1 + 1]);
    AlwaysLocked(cfg, states, actions, i);
    if c in s.calls && s.calls[c].Fetching? {
      assert s'.calls[c] == s.calls[c];
      assert j - 1 != i;
      k := FetchStartedAfter(cfg, states, actions, i, j - 1, c);
    } else {
      k := j - 1;
      assert StartsFetch(states, actions, k);
    }
  }
}
