/** How old the rows are that `get_news_rows` serves. Rows and the time of the last fetch are two
    separate reads, and the code checks the second against the window: the age is bounded exactly
    when the fetch on record at the first one lies in the window as well. */
module NewsStaleness {
  import opened Wrappers
  import opened NewsCache

  // ---- rows and records ------------------------------------------------------------------------

  /** Rows carry the time of the fetch on record at the same moment. */
  predicate PairFits(rows: Batch, record: Option<int>) {
    (record.Some? ==> rows.fetchedAt == record.value) && (rows.size > 0 ==> record.Some?)
  }

  predicate CallFits(call: Call) {
    (call.Loaded? || call.Reloaded?) ==> PairFits(call.rows, call.seen)
  }

  ghost predicate PairInv(cfg: Settings, s: State) {
    && PairFits(s.rows, s.lastFetch)
    && (forall c :: c in s.calls ==> CallFits(s.calls[c]))
    && (s.cache.Some? ==> s.cache.value.expires == s.cache.value.wroteAt + cfg.ttl)
  }

  lemma {:induction false} PairStep(cfg: Settings, s: State, a: Action, s': State)
    requires Next(cfg, s, a, s') && PairInv(cfg, s)
    ensures PairInv(cfg, s')
  {
    if CallActs(a) {
      assert CallFits(s.calls[a.c]);
    }
  }

  lemma {:induction false} AlwaysPaired(cfg: Settings, states: seq<State>, actions: seq<Action>, i: nat)
    requires Run(cfg, states, actions) && i < |states|
    ensures PairInv(cfg, states[i])
  {
    if i > 0 {
      hide Next, PairInv;
      AlwaysPaired(cfg, states, actions, i - 1);
      assert Next(cfg, states[i - 1], actions[i - 1], states[i - 1 + 1]);
      PairStep(cfg, states[i - 1], actions[i - 1], states[i]);
    }
  }

  // ---- where an answer's rows come from -----------------------------------------------------------

  predicate Answers(call: Call) {
    call.Fresh? || call.FreshLocked? || call.Returned?
  }

  /** The step in which a call, with this `now`, settles on the rows it will answer and cache. */
  predicate Settles(s: State, a: Action, s': State, now: int, rows: Batch) {
    && (a.ReadFetch? || a.FetchReturns? || a.ReturnStored?)
    && a.c in s.calls && a.c in s'.calls && Answers(s'.calls[a.c])
    && (a.ReadFetch? ==> s.calls[a.c].Loaded? || s.calls[a.c].Reloaded?)
    && (a.FetchReturns? ==> s.calls[a.c].Persisted?) && (a.ReturnStored? ==> s.calls[a.c].Fetching?)
    && s'.calls[a.c].now == now && s'.calls[a.c].rows == rows
  }

  /** What decides the age. Rows from the database: the code's own check, on the fetch on record
      when they were loaded instead of the one read after that. Rows a fetch answers: the stored
      batch lies within the window of the call's `now`. */
  predicate SettlesInWindow(cfg: Settings, s: State, a: Action)
    requires CallActs(a) && a.c in s.calls
    requires a.ReadFetch? ==> s.calls[a.c].Loaded? || s.calls[a.c].Reloaded?
    requires a.FetchReturns? ==> s.calls[a.c].Persisted?
    requires a.ReturnStored? ==> s.calls[a.c].Fetching?
  {
    match a
    case ReadFetch(c) => InWindow(cfg, s.calls[c].now, s.calls[c].rows, s.calls[c].seen)
    case FetchReturns(c) => s.calls[c].now - s.rows.fetchedAt <= cfg.window
    case ReturnStored(c) => s.calls[c].now - s.rows.fetchedAt <= cfg.window
    case _ => false
  }

  lemma {:induction false} SettlesIff(cfg: Settings, s: State, a: Action, s': State, now: int, rows: Batch)
    requires Next(cfg, s, a, s') && PairInv(cfg, s) && Settles(s, a, s', now, rows)
    ensures SettlesInWindow(cfg, s, a) <==> now - rows.fetchedAt <= cfg.window
  {
    assert CallFits(s.calls[a.c]);
  }

  lemma {:induction false} AnswerStep(cfg: Settings, s: State, a: Action, s': State, c: nat)
    requires Next(cfg, s, a, s') && c in s'.calls && Answers(s'.calls[c])
    ensures (c in s.calls && s.calls[c] == s'.calls[c])
            || (CallActs(a) && a.c == c && Settles(s, a, s', s'.calls[c].now, s'.calls[c].rows))
  {
  }

  lemma {:induction false} AnswerSource(cfg: Settings, states: seq<State>, actions: seq<Action>, i: nat, c: nat) returns (k: nat)
    requires Run(cfg, states, actions) && i < |states| && c in states[i].calls && Answers(states[i].calls[c])
    ensures k < i && k + 1 < |states| && k < |actions|
    ensures Settles(states[k], actions[k], states[k + 1], states[i].calls[c].now, states[i].calls[c].rows)
  {
    hide Next, Settles;
    assert i > 0;
    assert Next(cfg, states[i - 1], actions[i - 1], states[i - 1 + 1]);
    AnswerStep(cfg, states[i - 1], actions[i - 1], states[i], c);
    if c in states[i - 1].calls && states[i - 1].calls[c] == states[i].calls[c] {
      k := AnswerSource(cfg, states, actions, i - 1, c);
    } else {
      k := i - 1;
    }
  }

  lemma {:induction false} CacheStep(cfg: Settings, s: State, a: Action, s': State)
    requires Next(cfg, s, a, s') && s'.cache.Some?
    ensures s'.cache == s.cache
            || (a.Write? && a.c in s.calls && Answers(s.calls[a.c])
                && s.calls[a.c].now == s'.cache.value.basis && s.calls[a.c].rows == s'.cache.value.rows)
  {
  }

  lemma {:induction false} EntrySource(cfg: Settings, states: seq<State>, actions: seq<Action>, i: nat) returns (k: nat)
    requires Run(cfg, states, actions) && i < |states| && states[i].cache.Some?
    ensures k < i && k + 1 < |states| && k < |actions|
    ensures Settles(states[k], actions[k], states[k + 1], states[i].cache.value.basis, states[i].cache.value.rows)
  {
    hide Next, Settles;
    assert i > 0;
    assert Next(cfg, states[i - 1], actions[i - 1], states[i - 1 + 1]);
    CacheStep(cfg, states[i - 1], actions[i - 1], states[i]);
    if states[i].cache == states[i - 1].cache {
      k := EntrySource(cfg, states, actions, i - 1);
    } else {
      k := AnswerSource(cfg, states, actions, i - 1, actions[i - 1].c);
    }
  }

  // ---- the bound, exactly --------------------------------------------------------------------------

  function Age(entry: Entry, clock: int): int {
    clock - entry.rows.fetchedAt
  }

  /** As long as it can be hit, the entry's rows are younger than the refresh window, the time to
      live and the time the writing call took from its `now` to its write. */
  ghost predicate YoungForLife(cfg: Settings, entry: Entry) {
    forall clock :: entry.wroteAt <= clock < entry.expires ==>
      Age(entry, clock) < cfg.window + cfg.ttl + (entry.wroteAt - entry.basis)
  }

  lemma {:induction false} YoungIff(cfg: Settings, entry: Entry)
    requires cfg.ttl > 0 && entry.expires == entry.wroteAt + cfg.ttl
    ensures YoungForLife(cfg, entry) <==> entry.basis - entry.rows.fetchedAt <= cfg.window
  {
    if YoungForLife(cfg, entry) {
      assert Age(entry, entry.expires - 1) < cfg.window + cfg.ttl + (entry.wroteAt - entry.basis);
    }
  }

  /** Whatever is cached in whatever run: its age is bounded if and only if its writer settled on
      the rows, in step k, within the window. */
  lemma {:induction false} EntryIsYoungIff(cfg: Settings, states: seq<State>, actions: seq<Action>, i: nat) returns (k: nat)
    requires Run(cfg, states, actions) && i < |states| && states[i].cache.Some? && cfg.ttl > 0
    ensures k < i && k + 1 < |states| && k < |actions|
    ensures Settles(states[k], actions[k], states[k + 1], states[i].cache.value.basis, states[i].cache.value.rows)
    ensures YoungForLife(cfg, states[i].cache.value) <==> SettlesInWindow(cfg, states[k], actions[k])
  {
    k := EntrySource(cfg, states, actions, i);
    AlwaysPaired(cfg, states, actions, i);
    AlwaysPaired(cfg, states, actions, k);
    assert Next(cfg, states[k], actions[k], states[k + 1]);
    YoungIff(cfg, states[i].cache.value);
    hide Next, YoungForLife, SettlesInWindow;
    SettlesIff(cfg, states[k], actions[k], states[k + 1], states[i].cache.value.basis, states[i].cache.value.rows);
  }

  /** Rows answered from the database lie within the refresh window of the call's `now` if and only
      if the check the call made would also have passed on the fetch on record when it loaded them. */
  lemma {:induction false} DatabaseAnswerIsFreshIff(cfg: Settings, states: seq<State>, actions: seq<Action>, i: nat, c: nat)
    requires Run(cfg, states, actions) && i < |actions| && actions[i] == ReadFetch(c)
    requires c in states[i].calls && (states[i].calls[c].Loaded? || states[i].calls[c].Reloaded?)
    requires c in states[i + 1].calls && Answers(states[i + 1].calls[c])
    ensures var call, answer := states[i].calls[c], states[i + 1].calls[c];
            && InWindow(cfg, call.now, call.rows, states[i].lastFetch)
            && (answer.now - answer.rows.fetchedAt <= cfg.window <==> InWindow(cfg, call.now, call.rows, call.seen))
  {
    AlwaysPaired(cfg, states, actions, i);
    assert Next(cfg, states[i], actions[i], states[i + 1]);
    SettlesIff(cfg, states[i], actions[i], states[i + 1], states[i + 1].calls[c].now, states[i + 1].calls[c].rows);
  }

  /** A cache hit serves the entry, and rows settled on within the window are young. */
  lemma {:induction false} HitIsRecent(cfg: Settings, states: seq<State>, actions: seq<Action>, i: nat) returns (k: nat)
    requires Run(cfg, states, actions) && i < |actions| && actions[i].Hit?
    ensures states[i].cache.Some? && k < i && k + 1 < |states|
    ensures var s, entry := states[i], states[i].cache.value;
            && actions[i].c in states[i + 1].calls
            && states[i + 1].calls[actions[i].c] == Served(entry.rows, FromCache, s.now)
            && Settles(states[k], actions[k], states[k + 1], entry.basis, entry.rows)
            && (SettlesInWindow(cfg, states[k], actions[k]) ==>
                  Age(entry, s.now) < cfg.window + cfg.ttl + (entry.wroteAt - entry.basis))
  {
    assert Next(cfg, states[i], actions[i], states[i + 1]);
    k := EntrySource(cfg, states, actions, i);
    AlwaysPaired(cfg, states, actions, i);
    AlwaysPaired(cfg, states, actions, k);
    assert Next(cfg, states[k], actions[k], states[k + 1]);
    SettlesIff(cfg, states[k], actions[k], states[k + 1], states[i].cache.value.basis, states[i].cache.value.rows);
  }

  // ---- a fetch that persists ------------------------------------------------------------------------

  predicate FetchFits(lastFetch: Option<int>, call: Call) {
    call.Persisted? ==> lastFetch.Some? && call.now <= lastFetch.value
  }

  lemma {:induction false} FetchStep(cfg: Settings, s: State, a: Action, s': State)
    requires Next(cfg, s, a, s') && Honest(s)
    requires forall c :: c in s.calls ==> FetchFits(s.lastFetch, s.calls[c])
    ensures forall c :: c in s'.calls ==> FetchFits(s'.lastFetch, s'.calls[c])
  {
    RecordStep(cfg, s, a, s');
    if CallActs(a) {
      assert HonestCall(s.now, s.calls[a.c]) && FetchFits(s.lastFetch, s.calls[a.c]);
    }
  }

  lemma {:induction false} AlwaysFetchFits(cfg: Settings, states: seq<State>, actions: seq<Action>, i: nat)
    requires Run(cfg, states, actions) && i < |states|
    requires forall k :: 0 <= k < |actions| ==> GivenInTime(states[k], actions[k])
    ensures forall c :: c in states[i].calls ==> FetchFits(states[i].lastFetch, states[i].calls[c])
  {
    if i > 0 {
      hide Next, FetchFits, Honest;
      AlwaysFetchFits(cfg, states, actions, i - 1);
      AlwaysHonest(cfg, states, actions, i - 1);
      assert Next(cfg, states[i - 1], actions[i - 1], states[i - 1 + 1]);
      FetchStep(cfg, states[i - 1], actions[i - 1], states[i]);
    }
  }

  /** With calls that read the clock no later than they act, the rows after a fetch that persisted
      are always settled on within the window. */
  lemma {:induction false} PersistedIsInWindow(cfg: Settings, states: seq<State>, actions: seq<Action>, k: nat)
    requires Run(cfg, states, actions) && k < |actions| && actions[k].FetchReturns?
    requires forall k :: 0 <= k < |actions| ==> GivenInTime(states[k], actions[k])
    ensures actions[k].c in states[k].calls && states[k].calls[actions[k].c].Persisted?
    ensures SettlesInWindow(cfg, states[k], actions[k])
  {
    assert Next(cfg, states[k], actions[k], states[k + 1]);
    AlwaysPaired(cfg, states, actions, k);
    AlwaysFetchFits(cfg, states, actions, k);
    assert FetchFits(states[k].lastFetch, states[k].calls[actions[k].c]);
  }

  /** Only a fetch that fails serves older rows, and it leaves the cache as it was. */
  lemma {:induction false} FallbackLeavesCache(cfg: Settings, s: State, a: Action, s': State, c: nat)
    requires Next(cfg, s, a, s') && c in s'.calls && s'.calls[c].Served? && s'.calls[c].origin == Fallback
    requires c in s.calls ==> s.calls[c] != s'.calls[c]
    ensures s'.cache == s.cache && a == FetchFails(c) && c in s.calls && IsFetching(s.calls[c])
    ensures s'.calls[c].rows == s.calls[c].stored && s'.calls[c].rows.size > 0
  {
  }

  // ---- the torn pair -----------------------------------------------------------------------------

  function Call0(s: State, call: Call): State {
    s.(calls := s.calls[0 := call])
  }

  /** The bound fails for a torn pair, by any amount: rows of time 0, a batch persisted by a call
      on another key between the two reads, and a cache hit that serves the old rows while every
      step of the writer happens at one moment. */
  lemma {:induction false} TornPairIsUnbounded(cfg: Settings, age: nat) returns (states: seq<State>, actions: seq<Action>)
    requires cfg.ttl > 0
    ensures Run(cfg, states, actions) && |actions| > 0 && actions[|actions| - 1] == Hit(1)
    ensures forall k :: 0 <= k < |actions| ==> GivenInTime(states[k], actions[k])
    ensures var s := states[|actions| - 1];
            && s.cache.Some? && s.cache.value.wroteAt == s.cache.value.basis && s.cache.value.rows.size > 0
            && s.now - s.cache.value.rows.fetchedAt >= age
  {
    hide Next, Run;
    var s0 := State(0, None, Batch(0, 0), None, None, map[]);
    var s1 := s0.(rows := Batch(0, 1), lastFetch := Some(0));
    var s2 := s1.(now := age);
    var s3 := Call0(s2, Entered(Some(age)));
    var s4 := Call0(s2, Resolved(age));
    var s5 := Call0(s2, Loaded(age, Batch(0, 1), Some(0)));
    var s6 := s5.(rows := Batch(age, 1), lastFetch := Some(age));
    var s7 := Call0(s6, Fresh(age, Batch(0, 1)));
    var s8 := Call0(s6, Served(Batch(0, 1), FromDb, age)).(
      cache := Some(Entry(Batch(0, 1), age + cfg.ttl, age, age)));
    var s9 := s8.(calls := s8.calls[1 := Entered(Some(age))]);
    var s10 := s9.(calls := s9.calls[1 := Served(Batch(0, 1), FromCache, age)]);
    Front(cfg, s0, s1, s2, s3, age);
    Middle(cfg, age, s3, s4, s5, s6);
    Back(cfg, age, s6, s7, s8, s9, s10);
    states, actions := Assemble(cfg, age, s0, s1, s2, s3, s4, s5, s6, s7, s8, s9, s10);
  }

  lemma {:induction false} Assemble(cfg: Settings, age: nat, s0: State, s1: State, s2: State, s3: State, s4: State, s5: State,
                                    s6: State, s7: State, s8: State, s9: State, s10: State)
      returns (states: seq<State>, actions: seq<Action>)
    requires Init(s0) && s2.now == age && s8.now == age
    requires Next(cfg, s0, OtherPersist(1, 0), s1) && Next(cfg, s1, Tick(age), s2) && Next(cfg, s2, Start(0, Some(age)), s3)
    requires Next(cfg, s3, Miss(0), s4) && Next(cfg, s4, Load(0), s5) && Next(cfg, s5, OtherPersist(1, age), s6)
    requires Next(cfg, s6, ReadFetch(0), s7) && Next(cfg, s7, Write(0), s8)
    requires Next(cfg, s8, Start(1, Some(age)), s9) && Next(cfg, s9, Hit(1), s10)
    ensures Run(cfg, states, actions) && |actions| == 10 && actions[9] == Hit(1) && states[9] == s9
    ensures forall k :: 0 <= k < |actions| ==> GivenInTime(states[k], actions[k])
  {
    hide Next, Init;
    states := [s0, s1, s2, s3, s4, s5, s6, s7, s8, s9, s10];
    actions := [OtherPersist(1, 0), Tick(age), Start(0, Some(age)), Miss(0), Load(0), OtherPersist(1, age),
                ReadFetch(0), Write(0), Start(1, Some(age)), Hit(1)];
  }

  lemma {:induction false} Front(cfg: Settings, s0: State, s1: State, s2: State, s3: State, age: nat)
    requires s0 == State(0, None, Batch(0, 0), None, None, map[])
    requires s1 == s0.(rows := Batch(0, 1), lastFetch := Some(0)) && s2 == s1.(now := age)
    requires s3 == Call0(s2, Entered(Some(age)))
    ensures Next(cfg, s0, OtherPersist(1, 0), s1) && Next(cfg, s1, Tick(age), s2) && Next(cfg, s2, Start(0, Some(age)), s3)
  {
  }

  lemma {:induction false} Middle(cfg: Settings, age: nat, s3: State, s4: State, s5: State, s6: State)
    requires s3.rows == Batch(0, 1) && s3.lastFetch == Some(0) && s3.now == age && 0 in s3.calls && s3.calls[0] == Entered(Some(age))
    requires s4 == Call0(s3, Resolved(age)) && s5 == Call0(s4, Loaded(age, Batch(0, 1), Some(0)))
    requires s6 == s5.(rows := Batch(age, 1), lastFetch := Some(age))
    ensures Next(cfg, s3, Miss(0), s4) && Next(cfg, s4, Load(0), s5) && Next(cfg, s5, OtherPersist(1, age), s6)
  {
  }

  lemma {:induction false} Back(cfg: Settings, age: nat, s6: State, s7: State, s8: State, s9: State, s10: State)
    requires cfg.ttl > 0 && s6.now == age && s6.lastFetch == Some(age)
    requires s6.calls == map[0 := Loaded(age, Batch(0, 1), Some(0))]
    requires s7 == Call0(s6, Fresh(age, Batch(0, 1)))
    requires s8 == Call0(s6, Served(Batch(0, 1), FromDb, age)).(
      cache := Some(Entry(Batch(0, 1), age + cfg.ttl, age, age)))
    requires s9 == s8.(calls := s8.calls[1 := Entered(Some(age))])
    requires s10 == s9.(calls := s9.calls[1 := Served(Batch(0, 1), FromCache, age)])
    ensures Next(cfg, s6, ReadFetch(0), s7) && Next(cfg, s7, Write(0), s8)
    ensures Next(cfg, s8, Start(1, Some(age)), s9) && Next(cfg, s9, Hit(1), s10)
  {
  }
}
