/** Whole calls as sequences of steps of the news machine: what a call does from its start to its
    answer or to the wait for the lock, and from the lock to its answer. */
module NewsSteps {
  import opened Wrappers
  import opened NewsCache

  /** The state after a step of a call, if the call can take it. */
  function After(cfg: Settings, s: State, a: Action): Option<State>
    requires CallActs(a)
  {
    if a.c !in s.calls then None
    else
      match Advance(cfg, s, s.calls[a.c], a)
      case None => None
      case Some((call, s')) => Some(Released(s.calls[a.c], call, s').(calls := s.calls[a.c := call]))
  }

  /** The state after these steps of calls, if they can be taken one after the other. */
  function Perform(cfg: Settings, s: State, actions: seq<Action>): Option<State>
    requires forall a :: a in actions ==> CallActs(a)
  {
    if actions == [] then Some(s)
    else
      match Perform(cfg, s, actions[..|actions| - 1])
      case None => None
      case Some(s') => After(cfg, s', actions[|actions| - 1])
  }

  lemma {:induction false} AfterIsNext(cfg: Settings, s: State, a: Action, s': State)
    requires CallActs(a)
    ensures After(cfg, s, a) == Some(s') <==> Next(cfg, s, a, s')
  {
  }

  /** Performing steps is a run of the machine from that state on. */
  lemma {:induction false} PerformIsSteps(cfg: Settings, s: State, actions: seq<Action>) returns (states: seq<State>)
    requires (forall a :: a in actions ==> CallActs(a)) && Perform(cfg, s, actions).Some?
    ensures Steps(cfg, states, actions) && states[0] == s && states[|actions|] == Perform(cfg, s, actions).value
  {
    if actions == [] {
      states := [s];
    } else {
      var init, a := actions[..|actions| - 1], actions[|actions| - 1];
      var before := PerformIsSteps(cfg, s, init);
      AfterIsNext(cfg, before[|init|], a, Perform(cfg, s, actions).value);
      hide Next, After;
      states := before + [Perform(cfg, s, actions).value];
      forall i | 0 <= i < |actions|
        ensures Next(cfg, states[i], actions[i], states[i + 1])
      {
        if i < |init| {
          assert Next(cfg, before[i], init[i], before[i + 1]);
        }
      }
    }
  }

  lemma {:induction false} PerformMore(cfg: Settings, s: State, actions: seq<Action>, a: Action)
    requires (forall b :: b in actions ==> CallActs(b)) && CallActs(a) && Perform(cfg, s, actions).Some?
    ensures Perform(cfg, s, actions + [a]) == After(cfg, Perform(cfg, s, actions).value, a)
  {
    hide After;
    assert (actions + [a])[..|actions|] == actions;
  }

  /** The shared state m with call c in this phase. */
  function Put(m: State, c: nat, call: Call): State {
    m.(calls := m.calls[c := call])
  }

  lemma {:induction false} PerformNone(cfg: Settings, s: State)
    ensures Perform(cfg, s, []) == Some(s)
  {
  }

  /** One more step of call c, given what the step makes of its phase and of the shared state. */
  lemma {:induction false} Then(cfg: Settings, s: State, actions: seq<Action>, c: nat, m: State, call: Call,
                                a: Action, m': State, call': Call)
    requires (forall b :: b in actions ==> CallActs(b)) && CallActs(a) && a.c == c
    requires Perform(cfg, s, actions) == Some(Put(m, c, call))
    requires Advance(cfg, Put(m, c, call), call, a) == Some((call', Put(m', c, call))) && m'.calls == m.calls
    ensures Perform(cfg, s, actions + [a])
            == Some(Put(if Holds(call) && !Holds(call') then m'.(owner := None) else m', c, call'))
  {
    hide *;
    PerformMore(cfg, s, actions, a);
    AfterIs(cfg, c, m, call, a, m', call');
  }

  lemma {:induction false} AfterIs(cfg: Settings, c: nat, m: State, call: Call, a: Action, m': State, call': Call)
    requires CallActs(a) && a.c == c
    requires Advance(cfg, Put(m, c, call), call, a) == Some((call', Put(m', c, call))) && m'.calls == m.calls
    ensures After(cfg, Put(m, c, call), a) == Some(Put(if Holds(call) && !Holds(call') then m'.(owner := None) else m', c, call'))
  {
    hide Advance, Holds;
    assert m.calls[c := call][c := call'] == m.calls[c := call'];
  }

  // ---- the first look ----------------------------------------------------------------------------

  predicate Expired(s: State) {
    s.cache.Some? ==> s.now >= s.cache.value.expires
  }

  /** There are rows, and the fetch they are of is recorded at most the window before `now`. */
  predicate Recent(cfg: Settings, now: int, rows: Batch, lastFetch: Option<int>) {
    rows.size > 0 && lastFetch.Some? && now <= lastFetch.value + cfg.window
  }

  lemma {:induction false} HitSteps(cfg: Settings, m: State, c: nat, now: int)
    requires !Expired(m)
    ensures Perform(cfg, Put(m, c, Entered(Some(now))), [Hit(c)]) == Some(Put(m, c, Served(m.cache.value.rows, FromCache, m.now)))
  {
    var s := Put(m, c, Entered(Some(now)));
    PerformNone(cfg, s);
    Then(cfg, s, [], c, m, Entered(Some(now)), Hit(c), m, Served(m.cache.value.rows, FromCache, m.now));
    assert [] + [Hit(c)] == [Hit(c)];
  }

  /** The first look as far as both reads; then the rows are answered, or the lock waited for. */
  lemma {:induction false} LookSteps(cfg: Settings, m: State, c: nat, now: int)
    requires Expired(m)
    ensures Perform(cfg, Put(m, c, Entered(Some(now))), [Miss(c), Load(c), ReadFetch(c)])
            == Some(Put(m, c, if Recent(cfg, now, m.rows, m.lastFetch) then Fresh(now, m.rows) else Queueing(now)))
  {
    hide Perform;
    var s := Put(m, c, Entered(Some(now)));
    var next := if Recent(cfg, now, m.rows, m.lastFetch) then Fresh(now, m.rows) else Queueing(now);
    PerformNone(cfg, s);
    Then(cfg, s, [], c, m, Entered(Some(now)), Miss(c), m, Resolved(now));
    assert [] + [Miss(c)] == [Miss(c)];
    Then(cfg, s, [Miss(c)], c, m, Resolved(now), Load(c), m, Loaded(now, m.rows, m.lastFetch));
    assert [Miss(c)] + [Load(c)] == [Miss(c), Load(c)];
    Then(cfg, s, [Miss(c), Load(c)], c, m, Loaded(now, m.rows, m.lastFetch), ReadFetch(c), m, next);
    assert [Miss(c), Load(c)] + [ReadFetch(c)] == [Miss(c), Load(c), ReadFetch(c)];
  }

  /** The cache write, which may fail. */
  function WriteStep(c: nat, works: bool): (a: Action)
    ensures CallActs(a) && a.c == c
  {
    if works then Write(c) else WriteFails(c)
  }

  function Cached(cfg: Settings, m: State, rows: Batch, now: int, works: bool): State {
    if works then m.(cache := Some(Entry(rows, m.now + cfg.ttl, m.now, now))) else m
  }

  lemma {:induction false} AnswerSteps(cfg: Settings, m: State, c: nat, now: int, works: bool)
    requires Expired(m) && Recent(cfg, now, m.rows, m.lastFetch)
    ensures Perform(cfg, Put(m, c, Entered(Some(now))), [Miss(c), Load(c), ReadFetch(c), WriteStep(c, works)])
            == Some(Put(Cached(cfg, m, m.rows, now, works), c, Served(m.rows, FromDb, m.now)))
  {
    hide Perform;
    var so := [Miss(c), Load(c), ReadFetch(c)];
    LookSteps(cfg, m, c, now);
    Then(cfg, Put(m, c, Entered(Some(now))), so, c, m, Fresh(now, m.rows), WriteStep(c, works),
         Cached(cfg, m, m.rows, now, works), Served(m.rows, FromDb, m.now));
    assert so + [WriteStep(c, works)] == [Miss(c), Load(c), ReadFetch(c), WriteStep(c, works)];
  }

  // ---- under the lock --------------------------------------------------------------------------------

  lemma {:induction false} LockedHitSteps(cfg: Settings, m: State, c: nat, now: int)
    requires m.owner.None? && !Expired(m)
    ensures Perform(cfg, Put(m, c, Queueing(now)), [Acquire(c), Hit(c)])
            == Some(Put(m, c, Served(m.cache.value.rows, FromCache, m.now)))
  {
    var s, held := Put(m, c, Queueing(now)), m.(owner := Some(c));
    PerformNone(cfg, s);
    Then(cfg, s, [], c, m, Queueing(now), Acquire(c), held, Locked(now));
    assert [] + [Acquire(c)] == [Acquire(c)];
    Then(cfg, s, [Acquire(c)], c, held, Locked(now), Hit(c), held, Served(m.cache.value.rows, FromCache, m.now));
    assert [Acquire(c)] + [Hit(c)] == [Acquire(c), Hit(c)] && held.(owner := None) == m;
  }

  const LOOK_LENGTH := 4

  /** The second look as far as both reads. */
  function LockedLook(c: nat): (actions: seq<Action>)
    ensures |actions| == LOOK_LENGTH && forall a :: a in actions ==> CallActs(a) && a.c == c
  {
    [Acquire(c), Miss(c), Load(c), ReadFetch(c)]
  }

  lemma {:induction false} LockedLookSteps(cfg: Settings, m: State, c: nat, now: int)
    requires m.owner.None? && Expired(m)
    ensures Perform(cfg, Put(m, c, Queueing(now)), LockedLook(c))
            == Some(Put(m.(owner := Some(c)), c, if Recent(cfg, now, m.rows, m.lastFetch) then FreshLocked(now, m.rows)
                                                 else Fetching(now, m.rows, m.now)))
  {
    hide Perform;
    var s, held := Put(m, c, Queueing(now)), m.(owner := Some(c));
    var next := if Recent(cfg, now, m.rows, m.lastFetch) then FreshLocked(now, m.rows) else Fetching(now, m.rows, m.now);
    PerformNone(cfg, s);
    Then(cfg, s, [], c, m, Queueing(now), Acquire(c), held, Locked(now));
    assert [] + [Acquire(c)] == [Acquire(c)];
    Then(cfg, s, [Acquire(c)], c, held, Locked(now), Miss(c), held, Rechecked(now));
    assert [Acquire(c)] + [Miss(c)] == [Acquire(c), Miss(c)];
    Then(cfg, s, [Acquire(c), Miss(c)], c, held, Rechecked(now), Load(c), held, Reloaded(now, m.rows, m.lastFetch));
    assert [Acquire(c), Miss(c)] + [Load(c)] == [Acquire(c), Miss(c), Load(c)];
    Then(cfg, s, [Acquire(c), Miss(c), Load(c)], c, held, Reloaded(now, m.rows, m.lastFetch), ReadFetch(c), held, next);
    assert [Acquire(c), Miss(c), Load(c)] + [ReadFetch(c)] == LockedLook(c);
  }

  lemma {:induction false} LockedAnswerSteps(cfg: Settings, m: State, c: nat, now: int, works: bool)
    requires m.owner.None? && Expired(m) && Recent(cfg, now, m.rows, m.lastFetch)
    ensures Perform(cfg, Put(m, c, Queueing(now)), LockedLook(c) + [WriteStep(c, works)])
            == Some(Put(Cached(cfg, m, m.rows, now, works), c, Served(m.rows, FromDb, m.now)))
  {
    hide Perform;
    var held := m.(owner := Some(c));
    LockedLookSteps(cfg, m, c, now);
    Then(cfg, Put(m, c, Queueing(now)), LockedLook(c), c, held, FreshLocked(now, m.rows), WriteStep(c, works),
         Cached(cfg, held, m.rows, now, works), Served(m.rows, FromDb, m.now));
    assert Cached(cfg, held, m.rows, now, works).(owner := None) == Cached(cfg, m, m.rows, now, works);
  }

  lemma {:induction false} FailedSteps(cfg: Settings, m: State, c: nat, now: int)
    requires m.owner.None? && Expired(m) && !Recent(cfg, now, m.rows, m.lastFetch)
    ensures Perform(cfg, Put(m, c, Queueing(now)), LockedLook(c) + [FetchFails(c)])
            == Some(Put(m, c, if m.rows.size > 0 then Served(m.rows, Fallback, m.now) else Raised))
  {
    hide Perform;
    var held := m.(owner := Some(c));
    LockedLookSteps(cfg, m, c, now);
    Then(cfg, Put(m, c, Queueing(now)), LockedLook(c), c, held, Fetching(now, m.rows, m.now), FetchFails(c), held,
         if m.rows.size > 0 then Served(m.rows, Fallback, m.now) else Raised);
    assert held.(owner := None) == m;
  }

  /** A fetch that finds nothing new answers what is stored. */
  lemma {:induction false} StoredSteps(cfg: Settings, m: State, c: nat, now: int, works: bool)
    requires m.owner.None? && Expired(m) && !Recent(cfg, now, m.rows, m.lastFetch)
    ensures Perform(cfg, Put(m, c, Queueing(now)), LockedLook(c) + [ReturnStored(c)] + [WriteStep(c, works)])
            == Some(Put(Cached(cfg, m, m.rows, now, works), c, Served(m.rows, FromRemote, m.now)))
  {
    hide Perform;
    var s, held := Put(m, c, Queueing(now)), m.(owner := Some(c));
    LockedLookSteps(cfg, m, c, now);
    Then(cfg, s, LockedLook(c), c, held, Fetching(now, m.rows, m.now), ReturnStored(c), held, Returned(now, m.rows));
    Then(cfg, s, LockedLook(c) + [ReturnStored(c)], c, held, Returned(now, m.rows), WriteStep(c, works),
         Cached(cfg, held, m.rows, now, works), Served(m.rows, FromRemote, m.now));
    assert Cached(cfg, held, m.rows, now, works).(owner := None) == Cached(cfg, m, m.rows, now, works);
  }

  /** A fetch that persists, recorded under the clock or under the call's own `now`. */
  lemma {:induction false} PersistedSteps(cfg: Settings, m: State, c: nat, now: int, batch: Batch, works: bool)
    requires m.owner.None? && Expired(m) && !Recent(cfg, now, m.rows, m.lastFetch)
    requires batch.fetchedAt == m.now || batch.fetchedAt == now
    ensures var m' := Recorded(m, batch);
            Perform(cfg, Put(m, c, Queueing(now)),
                    LockedLook(c) + [Persist(c, batch.size, batch.fetchedAt)] + [FetchReturns(c)] + [WriteStep(c, works)])
            == Some(Put(Cached(cfg, m', m'.rows, now, works), c, Served(m'.rows, FromRemote, m.now)))
  {
    hide Perform;
    var s, held := Put(m, c, Queueing(now)), m.(owner := Some(c));
    var stored, persist := Recorded(held, batch), Persist(c, batch.size, batch.fetchedAt);
    LockedLookSteps(cfg, m, c, now);
    Then(cfg, s, LockedLook(c), c, held, Fetching(now, m.rows, m.now), persist, stored, Persisted(now, m.rows, m.now));
    Then(cfg, s, LockedLook(c) + [persist], c, stored, Persisted(now, m.rows, m.now), FetchReturns(c), stored, Returned(now, stored.rows));
    Then(cfg, s, LockedLook(c) + [persist] + [FetchReturns(c)], c, stored, Returned(now, stored.rows), WriteStep(c, works),
         Cached(cfg, stored, stored.rows, now, works), Served(stored.rows, FromRemote, m.now));
    var m' := Recorded(m, batch);
    assert Cached(cfg, stored, stored.rows, now, works).(owner := None) == Cached(cfg, m', m'.rows, now, works);
  }
}
