/** Runs of the news reader that show why its guarantees need their conditions: a batch that leaves
    the key without rows lets the next call fetch at once, a persist by the same key tears a pair of
    reads, and a fetch that finds nothing new caches stored rows of any age. */
module NewsLimits {
  import opened Wrappers
  import opened NewsCache

  function Put(s: State, c: nat, call: Call): State {
    s.(calls := s.calls[c := call])
  }

  /** The state in which call c, started now, is at the remote. */
  function AtRemote(s: State, c: nat): State {
    Put(s.(owner := Some(c)), c, Fetching(s.now, s.rows, s.now))
  }

  lemma {:induction false} Pack(cfg: Settings, s: State, s1: State, s2: State, s3: State, s4: State, a: Action, b: Action, c: Action, d: Action)
      returns (states: seq<State>, actions: seq<Action>)
    requires Next(cfg, s, a, s1) && Next(cfg, s1, b, s2) && Next(cfg, s2, c, s3) && Next(cfg, s3, d, s4)
    ensures Steps(cfg, states, actions) && |actions| == 4
    ensures states[0] == s && states[1] == s1 && states[2] == s2 && states[3] == s3 && states[4] == s4
    ensures actions == [a, b, c, d]
  {
    hide Next;
    states, actions := [s, s1, s2, s3, s4], [a, b, c, d];
  }

  lemma {:induction false} QueueUp(cfg: Settings, s: State, c: nat) returns (states: seq<State>, actions: seq<Action>)
    requires c !in s.calls && !InWindow(cfg, s.now, s.rows, s.lastFetch)
    ensures Steps(cfg, states, actions) && |states| == 5 && states[0] == s && states[4] == Put(s, c, Queueing(s.now))
    ensures actions == [Start(c, Some(s.now)), Miss(c), Load(c), ReadFetch(c)]
  {
    var s1 := Put(s, c, Entered(Some(s.now)));
    var s2 := Put(s1, c, Resolved(s.now));
    var s3 := Put(s2, c, Loaded(s.now, s.rows, s.lastFetch));
    var s4 := Put(s3, c, Queueing(s.now));
    assert Next(cfg, s, Start(c, Some(s.now)), s1) && Next(cfg, s1, Miss(c), s2);
    assert Next(cfg, s2, Load(c), s3) && Next(cfg, s3, ReadFetch(c), s4);
    assert s4 == Put(s, c, Queueing(s.now));
    hide Next, Put;
    states, actions := Pack(cfg, s, s1, s2, s3, s4, Start(c, Some(s.now)), Miss(c), Load(c), ReadFetch(c));
  }

  lemma {:induction false} GoToRemote(cfg: Settings, s: State, c: nat) returns (states: seq<State>, actions: seq<Action>)
    requires s.owner.None? && !InWindow(cfg, s.now, s.rows, s.lastFetch)
    ensures Steps(cfg, states, actions) && |states| == 5 && states[0] == Put(s, c, Queueing(s.now)) && states[4] == AtRemote(s, c)
    ensures actions == [Acquire(c), Miss(c), Load(c), ReadFetch(c)] && states[3].lastFetch == s.lastFetch
    ensures states[3].calls == s.calls[c := Reloaded(s.now, s.rows, s.lastFetch)]
  {
    var s4 := Put(s, c, Queueing(s.now));
    var s5 := Put(s4.(owner := Some(c)), c, Locked(s.now));
    var s6 := Put(s5, c, Rechecked(s.now));
    var s7 := Put(s6, c, Reloaded(s.now, s.rows, s.lastFetch));
    var s8 := AtRemote(s, c);
    assert s7.calls == s.calls[c := Reloaded(s.now, s.rows, s.lastFetch)];
    assert s8 == Put(s7, c, Fetching(s.now, s.rows, s.now));
    assert Next(cfg, s4, Acquire(c), s5) && Next(cfg, s5, Miss(c), s6);
    assert Next(cfg, s6, Load(c), s7) && Next(cfg, s7, ReadFetch(c), s8);
    hide Next, Put, AtRemote;
    states, actions := Pack(cfg, s4, s5, s6, s7, s8, Acquire(c), Miss(c), Load(c), ReadFetch(c));
  }

  /** What leaves the key without rows: nothing more after an empty batch, another key's batch
      after one with rows. */
  function Emptying(s: State, size: nat): Action {
    if size == 0 then Tick(s.now) else OtherPersist(0, s.now)
  }

  /** Call c persists a batch and answers it without a cache write; then the key has no rows. */
  lemma {:induction false} PersistAndLose(cfg: Settings, s: State, c: nat, size: nat) returns (states: seq<State>, actions: seq<Action>)
    requires s.owner.None? && s.lastFetch.None?
    ensures Steps(cfg, states, actions) && |states| == 5 && states[0] == AtRemote(s, c)
    ensures actions == [Persist(c, size, s.now), FetchReturns(c), WriteFails(c), Emptying(s, size)]
    ensures states[4] == Put(s.(rows := Batch(s.now, 0), lastFetch := Some(s.now)), c, Served(Batch(s.now, size), FromRemote, s.now))
    ensures states[1].rows.size == size
  {
    var at, kept := AtRemote(s, c), s.(rows := Batch(s.now, size), lastFetch := Some(s.now));
    var s1 := Put(kept.(owner := Some(c)), c, Persisted(s.now, s.rows, s.now));
    var s2 := Put(kept.(owner := Some(c)), c, Returned(s.now, Batch(s.now, size)));
    var s3 := Put(kept, c, Served(Batch(s.now, size), FromRemote, s.now));
    var s4 := s3.(rows := Batch(s.now, 0));
    PersistNext(cfg, s, c, size, at, s1, s2);
    AnswerNext(cfg, s, c, size, s2, s3, s4);
    hide Next, Put, AtRemote, Emptying;
    states, actions := Pack(cfg, at, s1, s2, s3, s4, Persist(c, size, s.now), FetchReturns(c), WriteFails(c), Emptying(s, size));
  }

  lemma {:induction false} PersistNext(cfg: Settings, s: State, c: nat, size: nat, at: State, s1: State, s2: State)
    requires at == AtRemote(s, c) && s.lastFetch.None?
    requires s1 == Put(at.(rows := Batch(s.now, size), lastFetch := Some(s.now)), c, Persisted(s.now, s.rows, s.now))
    requires s2 == Put(s1, c, Returned(s.now, Batch(s.now, size)))
    ensures Next(cfg, at, Persist(c, size, s.now), s1) && Next(cfg, s1, FetchReturns(c), s2)
  {
  }

  lemma {:induction false} AnswerNext(cfg: Settings, s: State, c: nat, size: nat, s2: State, s3: State, s4: State)
    requires c in s2.calls && s2.calls[c] == Returned(s.now, Batch(s.now, size)) && s2.now == s.now
    requires s2.rows == Batch(s.now, size) && s2.lastFetch == Some(s.now)
    requires s3 == Put(s2.(owner := None), c, Served(Batch(s.now, size), FromRemote, s.now))
    requires s4 == s3.(rows := Batch(s.now, 0))
    ensures Next(cfg, s2, WriteFails(c), s3) && Next(cfg, s3, Emptying(s, size), s4)
  {
  }

  lemma {:induction false} Join(cfg: Settings, xs: seq<State>, us: seq<Action>, ys: seq<State>, vs: seq<Action>)
      returns (zs: seq<State>, ws: seq<Action>)
    requires Steps(cfg, xs, us) && Steps(cfg, ys, vs) && xs[|us|] == ys[0]
    ensures zs == xs + ys[1..] && ws == us + vs && Steps(cfg, zs, ws)
    ensures forall i :: 0 <= i < |ys| ==> zs[|us| + i] == ys[i]
    ensures forall i :: 0 <= i < |xs| ==> zs[i] == xs[i]
  {
    hide Next;
    zs, ws := xs + ys[1..], us + vs;
    forall i | 0 <= i < |ws|
      ensures Next(cfg, zs[i], ws[i], zs[i + 1])
    {
      if i < |us| {
        assert Next(cfg, xs[i], us[i], xs[i + 1]);
      } else {
        assert Next(cfg, ys[i - |us|], vs[i - |us|], ys[i - |us| + 1]);
      }
    }
  }

  /** A run from the start: step i persists a batch, the key is left without rows, and step j
      starts a fetch although the last one is recorded at its `now`. A batch that has none for the
      key does it alone, with no other key involved. */
  lemma {:induction false} EmptiedRowsRefetch(cfg: Settings, size: nat) returns (states: seq<State>, actions: seq<Action>, i: nat, j: nat)
    ensures Run(cfg, states, actions) && i < j < |actions|
    ensures actions[i].Persist? && states[i + 1].rows.size == size && StartsFetch(states, actions, j)
    ensures states[j].lastFetch.Some? && states[j].lastFetch.value == actions[i].at
    ensures states[j].calls[actions[j].c].now - states[j].lastFetch.value <= cfg.window
    ensures size == 0 ==> NoOtherKey(actions)
  {
    var s0 := State(0, None, Batch(0, 0), None, None, map[]);
    var s := Put(s0.(rows := Batch(0, 0), lastFetch := Some(0)), 0, Served(Batch(0, size), FromRemote, 0));
    assert 1 !in s.calls && s.calls[1 := Reloaded(0, Batch(0, 0), Some(0))][1].Reloaded?;
    assert 1 in AtRemote(s, 1).calls && AtRemote(s, 1).calls[1] == Fetching(0, Batch(0, 0), 0);
    assert !InWindow(cfg, s.now, s.rows, s.lastFetch) && Init(s0);
    var a, ua := QueueUp(cfg, s0, 0);
    var b, ub := GoToRemote(cfg, s0, 0);
    var c, uc := PersistAndLose(cfg, s0, 0, size);
    var d, ud := QueueUp(cfg, s, 1);
    var e, ue := GoToRemote(cfg, s, 1);
    if size == 0 { OnlyOwnKey(ua, ub, uc, ud, ue); }
    hide Next, Put, AtRemote, Init, InWindow, StartsFetch, NoOtherKey, Emptying;
    states, actions := Splice(cfg, a, ua, b, ub, c, uc, d, ud, e, ue);
    i, j := 8, 19;
    FetchStarts(states, actions, j, 1);
  }

  /** No other key persists a batch. */
  predicate NoOtherKey(actions: seq<Action>) {
    forall k :: 0 <= k < |actions| ==> !actions[k].OtherPersist?
  }

  lemma {:induction false} OnlyOwnKey(ua: seq<Action>, ub: seq<Action>, uc: seq<Action>, ud: seq<Action>, ue: seq<Action>)
    requires NoOtherKey(ua) && NoOtherKey(ub) && NoOtherKey(uc) && NoOtherKey(ud) && NoOtherKey(ue)
    ensures NoOtherKey(ua + ub + uc + ud + ue)
  {
  }

  lemma {:induction false} FetchStarts(states: seq<State>, actions: seq<Action>, j: nat, c: nat)
    requires j < |actions| && j + 1 < |states| && actions[j] == ReadFetch(c) && c in states[j].calls && c in states[j + 1].calls
    requires states[j].calls[c].Reloaded? && states[j + 1].calls[c].Fetching?
    ensures StartsFetch(states, actions, j)
  {
  }

  lemma {:induction false} Splice(cfg: Settings, a: seq<State>, ua: seq<Action>, b: seq<State>, ub: seq<Action>, c: seq<State>, uc: seq<Action>,
                                  d: seq<State>, ud: seq<Action>, e: seq<State>, ue: seq<Action>)
      returns (states: seq<State>, actions: seq<Action>)
    requires Steps(cfg, a, ua) && Steps(cfg, b, ub) && Steps(cfg, c, uc) && Steps(cfg, d, ud) && Steps(cfg, e, ue)
    requires |ua| == 4 && |ub| == 4 && |uc| == 4 && |ud| == 4 && |ue| == 4
    requires a[4] == b[0] && b[4] == c[0] && c[4] == d[0] && d[4] == e[0]
    ensures Steps(cfg, states, actions) && |actions| == 20 && states[0] == a[0]
    ensures states[9] == c[1] && actions[8] == uc[0] && actions == ua + ub + uc + ud + ue
    ensures states[19] == e[3] && states[20] == e[4] && actions[19] == ue[3]
  {
    hide Steps;
    assert |a| == 5 && |b| == 5 && |c| == 5 && |d| == 5 && |e| == 5 by { FiveStates(cfg, a, ua, b, ub, c, uc, d, ud, e, ue); }
    var ab, uab := Join(cfg, a, ua, b, ub);
    var de, ude := Join(cfg, d, ud, e, ue);
    var abc, uabc := Join(cfg, ab, uab, c, uc);
    states, actions := Join(cfg, abc, uabc, de, ude);
    assert states[9] == abc[9] == c[1] && actions[8] == uabc[8] == uc[0] && states[0] == abc[0] == ab[0];
    assert states[19] == de[7] == e[3] && states[20] == de[8] == e[4] && actions[19] == ude[7] == ue[3];
  }

  lemma {:induction false} FiveStates(cfg: Settings, a: seq<State>, ua: seq<Action>, b: seq<State>, ub: seq<Action>, c: seq<State>, uc: seq<Action>,
                                      d: seq<State>, ud: seq<Action>, e: seq<State>, ue: seq<Action>)
    requires Steps(cfg, a, ua) && Steps(cfg, b, ub) && Steps(cfg, c, uc) && Steps(cfg, d, ud) && Steps(cfg, e, ue)
    ensures |a| == |ua| + 1 && |b| == |ub| + 1 && |c| == |uc| + 1 && |d| == |ud| + 1 && |e| == |ue| + 1
  {
  }

  // ---- a fetch that finds nothing new ---------------------------------------------------------------

  /** Rows of time 0 and nothing else, at a later time. */
  function Aged(age: nat): State {
    State(age, None, Batch(0, 1), Some(0), None, map[])
  }

  lemma {:induction false} ToAged(cfg: Settings, age: nat) returns (states: seq<State>, actions: seq<Action>)
    ensures Run(cfg, states, actions) && |states| == 3 && states[2] == Aged(age) && actions == [OtherPersist(1, 0), Tick(age)]
  {
    var s0 := State(0, None, Batch(0, 0), None, None, map[]);
    var s1 := s0.(rows := Batch(0, 1), lastFetch := Some(0));
    assert Next(cfg, s0, OtherPersist(1, 0), s1) && Next(cfg, s1, Tick(age), Aged(age));
    hide Next, Aged;
    states, actions := [s0, s1, Aged(age)], [OtherPersist(1, 0), Tick(age)];
  }

  /** The fetch answers what is stored, the answer is cached, and a second call hits it. */
  lemma {:induction false} CacheStored(cfg: Settings, age: nat) returns (states: seq<State>, actions: seq<Action>)
    requires cfg.ttl > 0
    ensures Steps(cfg, states, actions) && |actions| == 4 && states[0] == AtRemote(Aged(age), 0) && actions[3] == Hit(1)
    ensures states[3].cache == Some(Entry(Batch(0, 1), age + cfg.ttl, age, age)) && states[3].now == age
  {
    var at := AtRemote(Aged(age), 0);
    var s1 := Put(at, 0, Returned(age, Batch(0, 1)));
    var s2 := Put(s1.(owner := None, cache := Some(Entry(Batch(0, 1), age + cfg.ttl, age, age))), 0,
                  Served(Batch(0, 1), FromRemote, age));
    var s3 := Put(s2, 1, Entered(Some(age)));
    var s4 := Put(s3, 1, Served(Batch(0, 1), FromCache, age));
    StoredNext(cfg, age, at, s1, s2);
    HitNext(cfg, age, 1, s2, s3, s4);
    hide Next, Put, AtRemote;
    states, actions := Pack(cfg, at, s1, s2, s3, s4, ReturnStored(0), Write(0), Start(1, Some(age)), Hit(1));
  }

  lemma {:induction false} StoredNext(cfg: Settings, age: nat, at: State, s1: State, s2: State)
    requires at == AtRemote(Aged(age), 0) && s1 == Put(at, 0, Returned(age, Batch(0, 1)))
    requires s2 == Put(s1.(owner := None, cache := Some(Entry(Batch(0, 1), age + cfg.ttl, age, age))), 0,
                       Served(Batch(0, 1), FromRemote, age))
    ensures Next(cfg, at, ReturnStored(0), s1) && Next(cfg, s1, Write(0), s2)
    ensures s2.calls == map[0 := Served(Batch(0, 1), FromRemote, age)]
  {
  }

  lemma {:induction false} HitNext(cfg: Settings, age: nat, c: nat, s2: State, s3: State, s4: State)
    requires cfg.ttl > 0 && s2.now == age && s2.cache == Some(Entry(Batch(0, 1), age + cfg.ttl, age, age)) && c !in s2.calls
    requires s3 == Put(s2, c, Entered(Some(age))) && s4 == Put(s3, c, Served(Batch(0, 1), FromCache, age))
    ensures Next(cfg, s2, Start(c, Some(age)), s3) && Next(cfg, s3, Hit(c), s4)
  {
  }

  /** The age of cached rows has no bound either when a fetch answers stored rows without persisting
      a batch: rows of time 0, cached and served at any later time beyond the window. */
  lemma {:induction false} StoredAnswerIsUnbounded(cfg: Settings, age: nat) returns (states: seq<State>, actions: seq<Action>)
    requires cfg.ttl > 0 && age > cfg.window
    ensures Run(cfg, states, actions) && |actions| == 14 && actions[13] == Hit(1)
    ensures var s := states[13];
            && s.cache.Some? && s.cache.value.wroteAt == s.cache.value.basis && s.cache.value.rows.size > 0
            && s.now - s.cache.value.rows.fetchedAt == age
  {
    var s := Aged(age);
    var a, ua := ToAged(cfg, age);
    var b, ub := QueueUp(cfg, s, 0);
    var c, uc := GoToRemote(cfg, s, 0);
    var d, ud := CacheStored(cfg, age);
    hide Next, Put, AtRemote, Init;
    assert |a| == 3 && |b| == 5 && |c| == 5 && |d| == 5;
    var ab, uab := Join(cfg, a, ua, b, ub);
    var abc, uabc := Join(cfg, ab, uab, c, uc);
    states, actions := Join(cfg, abc, uabc, d, ud);
    assert states[0] == abc[0] == ab[0] == a[0];
    assert states[13] == d[3] && actions[13] == ud[3];
  }

  // ---- a pair torn by the same key --------------------------------------------------------------------

  /** Call 0 loads the rows; call 1, at the remote for the same key, then persists its batch. */
  function Tearing(age: nat): State {
    var at := AtRemote(Aged(age), 1);
    Put(Put(at.(rows := Batch(age, 1), lastFetch := Some(age)), 1, Persisted(age, Batch(0, 1), age)),
        0, Loaded(age, Batch(0, 1), Some(0)))
  }

  lemma {:induction false} LoadThenPersist(cfg: Settings, age: nat) returns (states: seq<State>, actions: seq<Action>)
    ensures Steps(cfg, states, actions) && |states| == 5 && states[0] == AtRemote(Aged(age), 1) && states[4] == Tearing(age)
    ensures actions == [Start(0, Some(age)), Miss(0), Load(0), Persist(1, 1, age)]
  {
    var at := AtRemote(Aged(age), 1);
    var s1, s2 := Put(at, 0, Entered(Some(age))), Put(at, 0, Resolved(age));
    var s3, s4 := Put(at, 0, Loaded(age, Batch(0, 1), Some(0))), Tearing(age);
    LoadNext(cfg, age, at, s1, s2, s3);
    BehindNext(cfg, age, at, s3, s4);
    hide Next, Put, AtRemote, Tearing;
    states, actions := Pack(cfg, at, s1, s2, s3, s4, Start(0, Some(age)), Miss(0), Load(0), Persist(1, 1, age));
  }

  lemma {:induction false} LoadNext(cfg: Settings, age: nat, at: State, s1: State, s2: State, s3: State)
    requires at == AtRemote(Aged(age), 1) && s1 == Put(at, 0, Entered(Some(age)))
    requires s2 == Put(at, 0, Resolved(age)) && s3 == Put(at, 0, Loaded(age, Batch(0, 1), Some(0)))
    ensures Next(cfg, at, Start(0, Some(age)), s1) && Next(cfg, s1, Miss(0), s2) && Next(cfg, s2, Load(0), s3)
  {
    assert s2.calls == s1.calls[0 := Resolved(age)] && s3.calls == s2.calls[0 := Loaded(age, Batch(0, 1), Some(0))];
  }

  lemma {:induction false} BehindNext(cfg: Settings, age: nat, at: State, s3: State, s4: State)
    requires at == AtRemote(Aged(age), 1) && s3 == Put(at, 0, Loaded(age, Batch(0, 1), Some(0))) && s4 == Tearing(age)
    ensures Next(cfg, s3, Persist(1, 1, age), s4)
  {
    assert s4.calls == s3.calls[1 := Persisted(age, Batch(0, 1), age)];
  }

  lemma {:induction false} CacheTorn(cfg: Settings, age: nat) returns (states: seq<State>, actions: seq<Action>)
    requires cfg.ttl > 0
    ensures Steps(cfg, states, actions) && |states| == 5 && states[0] == Tearing(age) && actions == [ReadFetch(0), Write(0), Start(2, Some(age)), Hit(2)]
    ensures states[3].cache == Some(Entry(Batch(0, 1), age + cfg.ttl, age, age)) && states[3].now == age
  {
    var at := Tearing(age);
    var s1 := Put(at, 0, Fresh(age, Batch(0, 1)));
    var s2 := Put(at.(cache := Some(Entry(Batch(0, 1), age + cfg.ttl, age, age))), 0, Served(Batch(0, 1), FromDb, age));
    var s3 := Put(s2, 2, Entered(Some(age)));
    var s4 := Put(s3, 2, Served(Batch(0, 1), FromCache, age));
    assert at.calls[0] == Loaded(age, Batch(0, 1), Some(0)) && 2 !in at.calls;
    TornNext(cfg, age, at, s1, s2);
    HitNext(cfg, age, 2, s2, s3, s4);
    hide Next, Put, Tearing;
    states, actions := Pack(cfg, at, s1, s2, s3, s4, ReadFetch(0), Write(0), Start(2, Some(age)), Hit(2));
  }

  lemma {:induction false} TornNext(cfg: Settings, age: nat, at: State, s1: State, s2: State)
    requires 0 in at.calls && at.calls[0] == Loaded(age, Batch(0, 1), Some(0)) && at.lastFetch == Some(age) && at.now == age
    requires s1 == Put(at, 0, Fresh(age, Batch(0, 1)))
    requires s2 == Put(at.(cache := Some(Entry(Batch(0, 1), age + cfg.ttl, age, age))), 0, Served(Batch(0, 1), FromDb, age))
    ensures Next(cfg, at, ReadFetch(0), s1) && Next(cfg, s1, Write(0), s2)
  {
    assert s2.calls == s1.calls[0 := Served(Batch(0, 1), FromDb, age)];
  }

  /** A pair is torn by its own key too, since the first look is taken outside the lock: the only
      batch after the old one is that of another call on the key, and the old rows are served from
      the cache all the same. */
  lemma {:induction false} OwnKeyTearsPair(cfg: Settings, age: nat) returns (states: seq<State>, actions: seq<Action>)
    requires cfg.ttl > 0 && age > cfg.window
    ensures Run(cfg, states, actions) && |actions| == 18 && actions[17] == Hit(2)
    ensures NoOtherKey(actions[1..])
    ensures var s := states[17];
            && s.cache.Some? && s.cache.value.wroteAt == s.cache.value.basis && s.cache.value.rows.size > 0
            && s.now - s.cache.value.rows.fetchedAt == age
  {
    var s := Aged(age);
    var a, ua := ToAged(cfg, age);
    var b, ub := QueueUp(cfg, s, 1);
    var c, uc := GoToRemote(cfg, s, 1);
    var d, ud := LoadThenPersist(cfg, age);
    var e, ue := CacheTorn(cfg, age);
    OnlyOwnKey([Tick(age)], ub, uc, ud, ue);
    hide Next, Put, AtRemote, Init, Tearing, NoOtherKey;
    assert |a| == 3 && |b| == 5 && |c| == 5 && |d| == 5 && |e| == 5;
    var ab, uab := Join(cfg, a, ua, b, ub);
    var abc, uabc := Join(cfg, ab, uab, c, uc);
    var abcd, uabcd := Join(cfg, abc, uabc, d, ud);
    states, actions := Join(cfg, abcd, uabcd, e, ue);
    assert states[0] == abcd[0] == abc[0] == ab[0] == a[0];
    assert states[17] == e[3] && actions == ua + ub + uc + ud + ue;
    assert actions[1..] == [Tick(age)] + ub + uc + ud + ue;
  }
}
