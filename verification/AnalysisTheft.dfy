/** What an overdue heartbeat leads to: a runner that is still alive loses its session to a second
    worker, and from then on two workers hold it. */
module AnalysisTheft {
  import opened Wrappers
  import opened AnalysisQueue
  import opened AnalysisLease
  import opened AnalysisCreation
  import S = AnalysisSkew

  /** Worker v, not there before, in this phase; and after it has claimed the session. */
  function Spawned(s: State, v: nat, worker: Worker): State {
    s.(workers := s.workers[v := worker])
  }

  function Stolen(s: State, v: nat, id: SessionId): State
    requires id in s.rows
  {
    s.(workers := s.workers[v := Claimed(id)], rows := s.rows[id := Claim(s.rows[id], s.now)])
  }

  lemma {:induction false} ArrivesNext(cfg: Settings, s: State, v: nat)
    requires v !in s.workers
    ensures Next(cfg, s, Spawn(v), Spawned(s, v, Idle))
    ensures Next(cfg, Spawned(s, v, Idle), SetLimit(v), Spawned(s, v, Limited(s.now - cfg.stale)))
  {
    assert Spawned(s, v, Limited(s.now - cfg.stale)).workers == Spawned(s, v, Idle).workers[v := Limited(s.now - cfg.stale)];
  }

  lemma {:induction false} PollsNext(cfg: Settings, s: State, v: nat)
    requires forall j :: j in s.rows ==> s.rows[j].status != Queued
    ensures Next(cfg, Spawned(s, v, Limited(s.now - cfg.stale)), Poll(v), Spawned(s, v, Polled(s.now - cfg.stale, s.now)))
    ensures Next(cfg, Spawned(s, v, Polled(s.now - cfg.stale, s.now)), FindNoQueued(v, {}),
                 Spawned(s, v, NoneQueued(s.now - cfg.stale, s.now)))
  {
    var s2, s3, s4 := Spawned(s, v, Limited(s.now - cfg.stale)), Spawned(s, v, Polled(s.now - cfg.stale, s.now)),
                      Spawned(s, v, NoneQueued(s.now - cfg.stale, s.now));
    assert s3.workers == s2.workers[v := Polled(s.now - cfg.stale, s.now)];
    assert s4.workers == s3.workers[v := NoneQueued(s.now - cfg.stale, s.now)] && s3.rows - {} == s3.rows;
  }

  lemma {:induction false} StealsNext(cfg: Settings, s: State, v: nat, id: SessionId)
    requires IsOldestStale(s.rows, id, s.now - cfg.stale)
    ensures Next(cfg, Spawned(s, v, NoneQueued(s.now - cfg.stale, s.now)), ClaimStale(v, id, {}), Stolen(s, v, id))
  {
    hide NoLater, IsStale;
    var s4 := Spawned(s, v, NoneQueued(s.now - cfg.stale, s.now));
    assert s4.rows - {} == s.rows && Stolen(s, v, id).workers == s4.workers[v := Claimed(id)];
  }

  lemma {:induction false} OldestIsRow(s: State, id: SessionId, before: int)
    requires IsOldestStale(s.rows, id, before)
    ensures id in s.rows
  {
  }

  lemma {:induction false} Pack(cfg: Settings, s0: State, s1: State, s2: State, s3: State, s4: State, s5: State,
                                a: Action, b: Action, c: Action, d: Action, e: Action)
      returns (states: seq<State>, actions: seq<Action>)
    requires Next(cfg, s0, a, s1) && Next(cfg, s1, b, s2) && Next(cfg, s2, c, s3) && Next(cfg, s3, d, s4) && Next(cfg, s4, e, s5)
    ensures Steps(cfg, states, actions) && states == [s0, s1, s2, s3, s4, s5] && actions == [a, b, c, d, e]
  {
    hide Next;
    states, actions := [s0, s1, s2, s3, s4, s5], [a, b, c, d, e];
  }

  /** Whenever the oldest stale session belongs to a runner that is still alive and none is queued,
      a fresh worker can claim it, and then two live runners hold it. */
  lemma {:induction false} OverdueIsStolen(cfg: Settings, s: State, w: nat, v: nat, id: SessionId)
      returns (states: seq<State>, actions: seq<Action>)
    requires w in s.workers && Held(s.workers[w]) == Some(id) && v !in s.workers
    requires IsOldestStale(s.rows, id, s.now - cfg.stale)
    requires forall j :: j in s.rows ==> s.rows[j].status != Queued
    ensures Steps(cfg, states, actions) && states[0] == s && |actions| == 5 && actions[4] == ClaimStale(v, id, {})
    ensures var last := states[|actions|];
            && w in last.workers && v in last.workers && w != v
            && Held(last.workers[w]) == Held(last.workers[v]) == Some(id)
  {
    hide Next, Spawned, IsOldestStale, IsStale;
    ArrivesNext(cfg, s, v);
    PollsNext(cfg, s, v);
    StealsNext(cfg, s, v, id);
    OldestIsRow(s, id, s.now - cfg.stale);
    var limit := s.now - cfg.stale;
    var last := Stolen(s, v, id);
    assert last.workers[w] == s.workers[w] && last.workers[v] == Claimed(id);
    states, actions := Pack(cfg, s, Spawned(s, v, Idle), Spawned(s, v, Limited(limit)), Spawned(s, v, Polled(limit, s.now)),
                            Spawned(s, v, NoneQueued(limit, s.now)), last,
                            Spawn(v), SetLimit(v), Poll(v), FindNoQueued(v, {}), ClaimStale(v, id, {}));
  }

  // ---- from the start ----------------------------------------------------------------------------

  /** A worker has claimed session 0 at time 0, runs it, and has not beaten since. */
  function Silent(cfg: Settings): State {
    S.Started(S.Polling(cfg, 0), 0, 0).(
      rows := S.Outdated(0), workers := map[0 := Runs(0, Quiet)], now := cfg.stale + 1)
  }

  lemma {:induction false} StartedFacts(cfg: Settings)
    ensures var s0 := S.Started(S.Polling(cfg, 0), 0, 0);
      && s0.workers == map[0 := Polled(0 - cfg.stale, 0)] && s0.now == 0
      && s0.rows == map[0 := Session("k", Queued, 0, 0, None)]
      && Silent(cfg) == s0.(rows := S.Outdated(0), workers := map[0 := Runs(0, Quiet)], now := cfg.stale + 1)
  {
  }

  lemma {:induction false} ToSilent(cfg: Settings) returns (states: seq<State>, actions: seq<Action>)
    ensures Steps(cfg, states, actions) && states[0] == S.Started(S.Polling(cfg, 0), 0, 0) && states[|actions|] == Silent(cfg)
  {
    StartedFacts(cfg);
    hide S.Started, S.Polling, Silent;
    var s0 := S.Started(S.Polling(cfg, 0), 0, 0);
    var s1 := s0.(rows := S.Outdated(0), workers := map[0 := Claimed(0)]);
    var s2, s3 := s1.(workers := map[0 := Runs(0, Quiet)]), Silent(cfg);
    S.ClaimsEarly(cfg, s0, s1, 0);
    RunsNext(cfg, s1, s2, s3);
    hide Next;
    states, actions := [s0, s1, s2, s3], [ClaimQueued(0, 0, {}), Begin(0), Tick(cfg.stale + 1)];
  }

  lemma {:induction false} RunsNext(cfg: Settings, s1: State, s2: State, s3: State)
    requires s1.workers == map[0 := Claimed(0)] && s1.rows == S.Outdated(0) && s1.now == 0
    requires s2 == s1.(workers := map[0 := Runs(0, Quiet)]) && s3 == s2.(now := cfg.stale + 1)
    ensures Next(cfg, s1, Begin(0), s2) && Next(cfg, s2, Tick(cfg.stale + 1), s3)
  {
    assert s2.workers == s1.workers[0 := Runs(0, Quiet)];
    assert s2.rows == s1.rows[0 := Touch(s1.rows[0], 0).(status := Running)];
  }

  lemma {:induction false} SilentIsOverdue(cfg: Settings)
    ensures var s := Silent(cfg);
      && s.workers == map[0 := Runs(0, Quiet)] && s.rows == S.Outdated(0)
      && IsOldestStale(s.rows, 0, s.now - cfg.stale) && forall j :: j in s.rows ==> s.rows[j].status != Queued
  {
  }

  /** A run from the start, for all settings: in state i the heartbeat is late by the least amount
      there is, and five steps on two workers hold the session. */
  lemma {:induction false} TheftFromStart(cfg: Settings) returns (states: seq<State>, actions: seq<Action>, i: nat)
    ensures Run(cfg, states, actions) && i + 5 == |actions| && actions[i + 4] == ClaimStale(1, 0, {})
    ensures var s, last := states[i], states[i + 5];
            && 0 in s.rows && s.rows[0].heartbeatAt == Some(0) && s.now == cfg.stale + 1
            && 0 in last.workers && 1 in last.workers && Held(last.workers[0]) == Held(last.workers[1]) == Some(0)
  {
    hide Next, S.Extends, S.AllExtend, S.Started, S.Polling, Held, CommitsAreFresh, Init, IsOldestStale, IsActive, Silent;
    var q := Silent(cfg);
    var ms, ns := ToOverdue(cfg);
    SilentIsOverdue(cfg);
    HeldBySilent(cfg);
    var ks, ls := OverdueIsStolen(cfg, q, 0, 1, 0);
    states, actions := S.Join(cfg, S.EMPTY, ms, ns, ks, ls);
    i := |ns|;
    assert states[i] == q && actions[i + 4] == ls[4];
  }

  lemma {:induction false} HeldBySilent(cfg: Settings)
    ensures var s := Silent(cfg);
      && 0 in s.workers && 1 !in s.workers && Held(s.workers[0]) == Some(0)
      && 0 in s.rows && s.rows[0].heartbeatAt == Some(0) && s.now == cfg.stale + 1
  {
  }

  lemma {:induction false} PollingIsFresh(cfg: Settings)
    ensures var p := S.Polling(cfg, 0);
      && CommitsAreFresh(p) && p.callers == map[] && p.owner == map[] && p.used == {} && p.rows == map[] && Init(S.EMPTY)
  {
  }

  lemma {:induction false} ToOverdue(cfg: Settings) returns (states: seq<State>, actions: seq<Action>)
    ensures Run(cfg, states, actions) && states[|actions|] == Silent(cfg)
  {
    hide Next, S.Extends, S.AllExtend, S.Started, S.Polling, CommitsAreFresh, Init, IsActive, Silent, S.AllTimely, S.Quiet;
    var p := S.Polling(cfg, 0);
    PollingIsFresh(cfg);
    var xs, us := S.ToPolling(cfg, 0);
    var ys, vs := S.StartSteps(cfg, p, 0, 0);
    var zs, ws := ToSilent(cfg);
    var ps, qs := S.Join(cfg, S.EMPTY, xs, us, ys, vs);
    states, actions := S.Join(cfg, S.EMPTY, ps, qs, zs, ws);
  }
}
