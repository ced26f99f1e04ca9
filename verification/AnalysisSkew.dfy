/** How long the reuse window of session creation is: exactly the active time minus the longest
    delay between a claim's clock reading and its statement, since such a claim sets the update
    time of a session before its creation. */
module AnalysisSkew {
  import opened Wrappers
  import opened AnalysisQueue
  import opened AnalysisLease
  import opened AnalysisCreation

  const EMPTY := State(0, map[], map[], map[], map[], map[], {})

  /** A start call for "k" made and finished at one moment, that finds nothing active. */
  function Started(s: State, c: nat, id: SessionId): State {
    s.(rows := s.rows[id := Session("k", Queued, s.now, s.now, None)], used := s.used + {id},
       closed := s.closed[id := EndedIds(s.rows, "k")], callers := s.callers - {c}, owner := s.owner - {"k"})
  }

  /** The later state has the workers, the time and the rows of the earlier one, and maybe more
      rows, which are open. */
  ghost predicate Extends(s: State, s': State) {
    && s'.workers == s.workers && s'.now == s.now
    && (forall id :: id in s.rows ==> id in s'.rows && s'.rows[id] == s.rows[id])
    && (forall id :: id in s'.rows ==> id in s.rows || !Ended(s'.rows[id]))
  }

  function At(s: State, c: nat, caller: Caller): State {
    s.(callers := s.callers[c := caller], owner := s.owner["k" := c])
  }

  function Admitted(s: State, c: nat): State {
    At(s, c, FreeToInsert("k", s.now, EndedIds(s.rows, "k")))
  }

  function Drawn(s: State, c: nat, id: SessionId): State {
    At(s, c, Inserted("k", s.now, EndedIds(s.rows, "k"), id, s.now)).(used := s.used + {id})
  }

  function Committed(s: State, c: nat, id: SessionId): State {
    Drawn(s, c, id).(callers := s.callers[c := Leaving("k")], closed := s.closed[id := EndedIds(s.rows, "k")],
                     rows := s.rows[id := Session("k", Queued, s.now, s.now, None)])
  }

  lemma {:induction false} LockNext(cfg: Settings, s: State, c: nat)
    requires c !in s.callers && "k" !in s.owner
    ensures Next(cfg, s, Call(c, "k"), s.(callers := s.callers[c := Waiting("k")]))
    ensures Next(cfg, s.(callers := s.callers[c := Waiting("k")]), Acquire(c), At(s, c, Locked("k")))
  {
    hide IsActive, EndedIds, WorkerStep;
    assert s.callers[c := Waiting("k")][c := Locked("k")] == s.callers[c := Locked("k")];
  }

  lemma {:induction false} LookNext(cfg: Settings, s: State, c: nat)
    requires forall j :: j in s.rows ==> !IsActive(s.rows[j], "k", s.now - cfg.activeTtl)
    ensures Next(cfg, At(s, c, Locked("k")), ReadClock(c), At(s, c, Looking("k", s.now)))
    ensures Next(cfg, At(s, c, Looking("k", s.now)), FindNoActive(c), Admitted(s, c))
  {
    hide IsActive, EndedIds, WorkerStep;
    var s2, s3 := At(s, c, Locked("k")), At(s, c, Looking("k", s.now));
    assert s3.callers == s2.callers[c := Looking("k", s.now)];
    assert Admitted(s, c).callers == s3.callers[c := FreeToInsert("k", s.now, EndedIds(s.rows, "k"))];
  }

  lemma {:induction false} InsertNext(cfg: Settings, s: State, c: nat, id: SessionId)
    requires id !in s.used
    ensures Next(cfg, Admitted(s, c), Insert(c, id), Drawn(s, c, id))
    ensures Next(cfg, Drawn(s, c, id), Commit(c), Committed(s, c, id))
  {
    hide IsActive, EndedIds, WorkerStep;
    var s4, s5, s6 := Admitted(s, c), Drawn(s, c, id), Committed(s, c, id);
    assert s5.callers == s4.callers[c := Inserted("k", s.now, EndedIds(s.rows, "k"), id, s.now)];
    assert s6.callers == s5.callers[c := Leaving("k")];
  }

  lemma {:induction false} LeaveNext(cfg: Settings, s: State, c: nat, id: SessionId)
    requires c !in s.callers && "k" !in s.owner
    ensures Next(cfg, Committed(s, c, id), Leave(c), Started(s, c, id))
  {
    hide IsActive, EndedIds, WorkerStep;
    var s6, s7 := Committed(s, c, id), Started(s, c, id);
    assert s7.callers == s6.callers - {c} && s7.owner == s6.owner - {"k"};
  }

  lemma {:induction false} StartSteps(cfg: Settings, s: State, c: nat, id: SessionId) returns (states: seq<State>, actions: seq<Action>)
    requires c !in s.callers && "k" !in s.owner && id !in s.used && CommitsAreFresh(s)
    requires forall j :: j in s.rows ==> !IsActive(s.rows[j], "k", s.now - cfg.activeTtl)
    ensures Steps(cfg, states, actions) && states[0] == s && states[|actions|] == Started(s, c, id)
    ensures AllExtend(s, states)
  {
    hide *;
    StartExtends(s, c, id);
    LockNext(cfg, s, c);
    LookNext(cfg, s, c);
    InsertNext(cfg, s, c, id);
    LeaveNext(cfg, s, c, id);
    var s1, s2 := s.(callers := s.callers[c := Waiting("k")]), At(s, c, Locked("k"));
    var xs, us := Chain(cfg, s, s, s1, s2, Call(c, "k"), Acquire(c));
    var ys, vs := Chain(cfg, s, s2, At(s, c, Looking("k", s.now)), Admitted(s, c), ReadClock(c), FindNoActive(c));
    var zs, ws := Chain(cfg, s, Admitted(s, c), Drawn(s, c, id), Committed(s, c, id), Insert(c, id), Commit(c));
    var ks, ls := Link(cfg, s, Committed(s, c, id), Started(s, c, id), Leave(c));
    xs, us := Join(cfg, s, xs, us, ys, vs);
    zs, ws := Join(cfg, s, zs, ws, ks, ls);
    states, actions := Join(cfg, s, xs, us, zs, ws);
  }

  lemma {:induction false} StartExtends(s: State, c: nat, id: SessionId)
    requires id !in s.used && CommitsAreFresh(s)
    ensures Extends(s, s) && Extends(s, s.(callers := s.callers[c := Waiting("k")]))
    ensures Extends(s, At(s, c, Locked("k"))) && Extends(s, At(s, c, Looking("k", s.now))) && Extends(s, Admitted(s, c))
    ensures Extends(s, Drawn(s, c, id)) && Extends(s, Committed(s, c, id)) && Extends(s, Started(s, c, id))
  {
    assert id !in s.rows;
  }

  ghost predicate AllExtend(s: State, states: seq<State>) {
    forall i :: 0 <= i < |states| ==> Extends(s, states[i])
  }

  lemma {:induction false} Link(cfg: Settings, from: State, s: State, s': State, a: Action)
      returns (states: seq<State>, actions: seq<Action>)
    requires Next(cfg, s, a, s') && Extends(from, s) && Extends(from, s')
    ensures Steps(cfg, states, actions) && states[0] == s && states[|actions|] == s' && AllExtend(from, states)
  {
    hide Next, Extends;
    states, actions := [s, s'], [a];
  }

  lemma {:induction false} Chain(cfg: Settings, from: State, s0: State, s1: State, s2: State, a: Action, b: Action)
      returns (states: seq<State>, actions: seq<Action>)
    requires Next(cfg, s0, a, s1) && Next(cfg, s1, b, s2)
    requires Extends(from, s0) && Extends(from, s1) && Extends(from, s2)
    ensures Steps(cfg, states, actions) && states[0] == s0 && states[|actions|] == s2 && AllExtend(from, states)
  {
    hide Next, Extends;
    states, actions := [s0, s1, s2], [a, b];
  }

  lemma {:induction false} Join(cfg: Settings, from: State, xs: seq<State>, us: seq<Action>, ys: seq<State>, vs: seq<Action>)
      returns (zs: seq<State>, ws: seq<Action>)
    requires Steps(cfg, xs, us) && Steps(cfg, ys, vs) && xs[|us|] == ys[0]
    ensures zs == xs + ys[1..] && ws == us + vs
    ensures Steps(cfg, zs, ws) && zs[0] == xs[0] && zs[|ws|] == ys[|vs|]
    ensures AllExtend(from, xs) && AllExtend(from, ys) ==> AllExtend(from, zs)
  {
    hide Next, Extends;
    zs, ws := xs + ys[1..], us + vs;
    forall i | 0 <= i < |ws|
      ensures Next(cfg, zs[i], ws[i], zs[i + 1])
    {
      if i < |us| {
        assert Next(cfg, xs[i], us[i], xs[i + 1]);
      } else {
        assert Next(cfg, ys[i - |us|], vs[i - |us|], ys[i - |us| + 1]);
      }
    }
  }

  // ---- the run ------------------------------------------------------------------------------------

  /** A worker polled at time 0 and then waited. */
  function Polling(cfg: Settings, delay: nat): State {
    EMPTY.(workers := map[0 := Polled(0 - cfg.stale, 0)], now := delay)
  }

  /** The row of session 0, claimed with the clock of the poll. */
  function Outdated(delay: nat): map<SessionId, Session> {
    map[0 := Session("k", Running, delay, 0, Some(0))]
  }

  /** Later, with the worker gone. */
  function Abandoned(cfg: Settings, delay: nat, later: nat): State {
    Started(Polling(cfg, delay), 0, 0).(rows := Outdated(delay), workers := map[], now := later)
  }

  function Doubled(delay: nat, later: nat): map<SessionId, Session> {
    Outdated(delay)[1 := Session("k", Queued, later, later, None)]
  }

  ghost predicate Quiet(states: seq<State>) {
    forall i :: 0 <= i < |states| ==> AllOpen(states[i])
  }

  ghost predicate AllOpen(s: State) {
    forall id :: id in s.rows ==> !Ended(s.rows[id])
  }

  ghost predicate AllTimely(cfg: Settings, states: seq<State>) {
    forall i :: 0 <= i < |states| ==> Timely(cfg, states[i])
  }

  lemma {:induction false} ToPolling(cfg: Settings, delay: nat) returns (states: seq<State>, actions: seq<Action>)
    ensures Steps(cfg, states, actions) && states[0] == EMPTY && states[|actions|] == Polling(cfg, delay)
    ensures AllTimely(cfg, states) && Quiet(states)
  {
    var s1 := EMPTY.(workers := map[0 := Idle]);
    var s2 := s1.(workers := map[0 := Limited(0 - cfg.stale)]);
    var s3 := s2.(workers := map[0 := Polled(0 - cfg.stale, 0)]);
    states := [EMPTY, s1, s2, s3, Polling(cfg, delay)];
    actions := [Spawn(0), SetLimit(0), Poll(0), Tick(delay)];
  }

  lemma {:induction false} ToAbandoned(cfg: Settings, delay: nat, later: nat) returns (states: seq<State>, actions: seq<Action>)
    requires delay <= cfg.claimDelay && delay <= later
    ensures Steps(cfg, states, actions) && states[0] == Started(Polling(cfg, delay), 0, 0)
    ensures states[|actions|] == Abandoned(cfg, delay, later)
    ensures (delay <= cfg.stale ==> AllTimely(cfg, states)) && Quiet(states)
  {
    var s0 := Started(Polling(cfg, delay), 0, 0);
    var s1 := s0.(rows := Outdated(delay), workers := map[0 := Claimed(0)]);
    var s2, s3 := s1.(workers := map[]), Abandoned(cfg, delay, later);
    assert s0.workers == map[0 := Polled(0 - cfg.stale, 0)] && s0.now == delay;
    assert s0.rows == map[0 := Session("k", Queued, delay, delay, None)];
    assert s3 == s2.(now := later);
    hide Started, Abandoned, Polling;
    ClaimsEarly(cfg, s0, s1, delay);
    LeavesIt(cfg, s1, s2, s3, later);
    OpenAndTimely(cfg, s0, s1, s2, s3, delay);
    hide Next, AllOpen, Timely;
    states := [s0, s1, s2, s3];
    actions := [ClaimQueued(0, 0, {}), Crash(0), Tick(later)];
  }

  lemma {:induction false} LeavesIt(cfg: Settings, s1: State, s2: State, s3: State, later: nat)
    requires s1.workers == map[0 := Claimed(0)] && s1.now <= later && s2 == s1.(workers := map[]) && s3 == s2.(now := later)
    ensures Next(cfg, s1, Crash(0), s2) && Next(cfg, s2, Tick(later), s3)
  {
    assert s1.workers - {0} == map[];
  }

  lemma {:induction false} OpenAndTimely(cfg: Settings, s0: State, s1: State, s2: State, s3: State, delay: nat)
    requires s0.workers == map[0 := Polled(0 - cfg.stale, 0)] && s0.rows == map[0 := Session("k", Queued, delay, delay, None)]
    requires s1.workers == map[0 := Claimed(0)] && s1.rows == Outdated(delay) && s1.now == delay
    requires s2.workers == map[] && s2.rows == Outdated(delay) && s3.workers == map[] && s3.rows == Outdated(delay)
    ensures AllOpen(s0) && AllOpen(s1) && AllOpen(s2) && AllOpen(s3)
    ensures Timely(cfg, s0) && Timely(cfg, s2) && Timely(cfg, s3) && (delay <= cfg.stale ==> Timely(cfg, s1))
  {
  }

  lemma {:induction false} ClaimsEarly(cfg: Settings, s0: State, s1: State, delay: nat)
    requires s0.workers == map[0 := Polled(0 - cfg.stale, 0)] && s0.now == delay <= cfg.claimDelay
    requires s0.rows == map[0 := Session("k", Queued, delay, delay, None)]
    requires s1 == s0.(rows := Outdated(delay), workers := map[0 := Claimed(0)])
    ensures Next(cfg, s0, ClaimQueued(0, 0, {}), s1)
  {
    assert s0.rows - {} == s0.rows;
    assert IsOldestQueued(s0.rows - {}, 0);
    assert s1.rows == s0.rows[0 := Claim(s0.rows[0], 0)];
    assert s1.workers == s0.workers[0 := Claimed(0)];
  }

  lemma {:induction false} StartIsQuiet(cfg: Settings, s: State, states: seq<State>)
    requires AllExtend(s, states) && AllOpen(s)
    requires forall w :: w in s.workers ==> Held(s.workers[w]).None?
    ensures AllTimely(cfg, states) && Quiet(states)
  {
    forall i | 0 <= i < |states|
      ensures Timely(cfg, states[i]) && AllOpen(states[i])
    {
      assert Extends(s, states[i]);
    }
  }

  /** A run in which session 0 is created at `delay`, looks outdated at `later`, and is then joined
      by session 1. */
  lemma {:induction false} DoublingRun(cfg: Settings, delay: nat, later: nat) returns (states: seq<State>, actions: seq<Action>)
    requires delay <= cfg.claimDelay && delay <= later && cfg.activeTtl < later
    ensures Run(cfg, states, actions) && Quiet(states) && (delay <= cfg.stale ==> AllTimely(cfg, states))
    ensures states[|actions|].rows == Doubled(delay, later)
  {
    var p, q := Polling(cfg, delay), Abandoned(cfg, delay, later);
    assert forall w :: w in p.workers ==> Held(p.workers[w]).None?;
    assert AllOpen(p) && AllOpen(q) && CommitsAreFresh(p) && CommitsAreFresh(q) && Init(EMPTY);
    assert forall id :: id in q.rows ==> !IsActive(q.rows[id], "k", q.now - cfg.activeTtl);
    assert Started(q, 0, 1).rows == Doubled(delay, later);
    var xs, us := ToPolling(cfg, delay);
    var ys, vs := StartSteps(cfg, p, 0, 0);
    var zs, ws := ToAbandoned(cfg, delay, later);
    var ks, ls := StartSteps(cfg, q, 0, 1);
    hide Next, Extends, Started, Timely, AllOpen, Polling, Abandoned, Held, IsActive, CommitsAreFresh, Doubled, Init;
    StartIsQuiet(cfg, p, ys);
    StartIsQuiet(cfg, q, ks);
    var ps, qs := Join(cfg, EMPTY, xs, us, ys, vs);
    Glue(cfg, xs, ys, ps);
    var ms, ns := Join(cfg, EMPTY, ps, qs, zs, ws);
    Glue(cfg, ps, zs, ms);
    states, actions := Join(cfg, EMPTY, ms, ns, ks, ls);
    Glue(cfg, ms, ks, states);
  }

  lemma {:induction false} Glue(cfg: Settings, xs: seq<State>, ys: seq<State>, zs: seq<State>)
    requires |ys| > 0 && zs == xs + ys[1..]
    ensures Quiet(xs) && Quiet(ys) ==> Quiet(zs)
    ensures AllTimely(cfg, xs) && AllTimely(cfg, ys) ==> AllTimely(cfg, zs)
  {
    hide AllOpen, Timely;
  }

  // ---- the window is exact ------------------------------------------------------------------------

  lemma {:induction false} QuietSawNothing(states: seq<State>, actions: seq<Action>, i: nat, a: SessionId, b: SessionId)
    requires |states| == |actions| + 1 && i < |states| && Quiet(states)
    ensures !SomeLookSawEnded(states, actions, i, a, b)
  {
    forall j: nat
      ensures !SawEnded(states, actions, i, a, b, j)
    {
      assert j < |states| ==> AllOpen(states[j]);
    }
  }

  lemma {:induction false} WiderFails(cfg: Settings, window: int) returns (states: seq<State>, actions: seq<Action>)
    requires window >= 0 && window > Window(cfg)
    ensures Run(cfg, states, actions) && !DedupsWithin(states, actions, window)
  {
    var delay := cfg.claimDelay;
    var later := if delay > cfg.activeTtl then delay else cfg.activeTtl + 1;
    states, actions := DoublingRun(cfg, delay, later);
    hide Run, Quiet, SomeLookSawEnded;
    var last := |states| - 1;
    assert |states| == |actions| + 1 by { RunLength(cfg, states, actions); }
    QuietSawNothing(states, actions, last, 0, 1);
    QuietSawNothing(states, actions, last, 1, 0);
    assert Close(states[last], 0, 1, window);
  }

  lemma {:induction false} RunLength(cfg: Settings, states: seq<State>, actions: seq<Action>)
    requires Run(cfg, states, actions)
    ensures |states| == |actions| + 1
  {
  }

  /** Creation dedup holds in every run for a window if and only if the window is at most the
      active time minus the claim delay, or empty. For the whole active time that means: if and
      only if claims take effect at the moment they read the clock. */
  lemma {:induction false} WindowIsExact(cfg: Settings, window: int)
    ensures (forall states, actions :: Run(cfg, states, actions) ==> DedupsWithin(states, actions, window))
            <==> window < 0 || window <= Window(cfg)
  {
    hide Run, DedupsWithin;
    if window < 0 {
      forall states, actions | Run(cfg, states, actions)
        ensures DedupsWithin(states, actions, window)
      {
        EmptyWindow(states, actions, window);
      }
    } else if window <= Window(cfg) {
      forall states, actions | Run(cfg, states, actions)
        ensures DedupsWithin(states, actions, window)
      {
        AlwaysDedups(cfg, states, actions, window);
      }
    } else {
      var states, actions := WiderFails(cfg, window);
    }
  }

  /** Reuse for the whole active time, then: exactly when a claim takes effect at the moment it
      reads the clock. */
  lemma {:induction false} WholeActiveTimeIff(cfg: Settings)
    ensures (forall states, actions :: Run(cfg, states, actions) ==> DedupsWithin(states, actions, cfg.activeTtl))
            <==> cfg.claimDelay == 0
  {
    hide Run, DedupsWithin;
    WindowIsExact(cfg, cfg.activeTtl);
  }

  lemma {:induction false} EmptyWindow(states: seq<State>, actions: seq<Action>, window: int)
    requires window < 0
    ensures DedupsWithin(states, actions, window) && OpenSpaced(states, window)
  {
  }

  // ---- with timely heartbeats -----------------------------------------------------------------------

  /** A claim stamps its clock reading as the heartbeat, so a timely one is not later than the
      stale interval either. */
  function Tight(cfg: Settings): Settings {
    cfg.(claimDelay := if cfg.claimDelay <= cfg.stale then cfg.claimDelay else cfg.stale)
  }

  lemma {:induction false} StepTightens(cfg: Settings, s: State, a: Action, s': State)
    requires Next(cfg, s, a, s') && Timely(cfg, s')
    ensures Next(Tight(cfg), s, a, s')
  {
    if a.ClaimQueued? || a.ClaimStale? {
      hide IsOldestQueued, IsOldestStale, IsStale;
      assert s'.workers[a.w] == Claimed(a.id);
      ClaimedBeat(cfg, s, a, s');
    }
  }

  lemma {:induction false} ClaimedBeat(cfg: Settings, s: State, a: Action, s': State)
    requires Next(cfg, s, a, s') && (a.ClaimQueued? || a.ClaimStale?)
    ensures a.w in s.workers && (s.workers[a.w].Polled? || s.workers[a.w].NoneQueued?)
    ensures a.id in s'.rows && s'.rows[a.id].heartbeatAt == Some(s.workers[a.w].claimNow) && s'.now == s.now
  {
    hide NoLater, IsStale;
  }

  lemma {:induction false} RunTightens(cfg: Settings, states: seq<State>, actions: seq<Action>)
    requires TimelyRun(cfg, states, actions)
    ensures TimelyRun(Tight(cfg), states, actions)
  {
    forall i | 0 <= i < |actions|
      ensures Next(Tight(cfg), states[i], actions[i], states[i + 1])
    {
      hide Next, Tight, Timely;
      assert Next(cfg, states[i], actions[i], states[i + 1]) && Timely(cfg, states[i + 1]);
      StepTightens(cfg, states[i], actions[i], states[i + 1]);
    }
    forall i | 0 <= i < |states|
      ensures Timely(Tight(cfg), states[i])
    {
      assert Timely(cfg, states[i]);
    }
  }

  /** In every run with timely heartbeats open sessions of one key are further apart than a window
      if and only if the window is at most the active time minus the claim delay or the stale
      interval, whichever is shorter, or empty. */
  lemma {:induction false} TimelyWindowIsExact(cfg: Settings, window: int)
    ensures (forall states, actions :: TimelyRun(cfg, states, actions) ==> OpenSpaced(states, window))
            <==> window < 0 || window <= Window(Tight(cfg))
  {
    hide TimelyRun, OpenSpaced;
    if window < 0 {
      forall states, actions | TimelyRun(cfg, states, actions)
        ensures OpenSpaced(states, window)
      {
        EmptyWindow(states, actions, window);
      }
    } else if window <= Window(Tight(cfg)) {
      forall states, actions | TimelyRun(cfg, states, actions)
        ensures OpenSpaced(states, window)
      {
        RunTightens(cfg, states, actions);
        AlwaysOpenSpaced(Tight(cfg), states, actions, window);
      }
    } else {
      var states, actions := TimelyDoubling(cfg, window);
    }
  }

  lemma {:induction false} TimelyDoubling(cfg: Settings, window: int) returns (states: seq<State>, actions: seq<Action>)
    requires window >= 0 && window > Window(Tight(cfg))
    ensures TimelyRun(cfg, states, actions) && !OpenSpaced(states, window)
  {
    var delay := Tight(cfg).claimDelay;
    var later := if delay > cfg.activeTtl then delay else cfg.activeTtl + 1;
    states, actions := DoublingRun(cfg, delay, later);
    hide Run, Timely, AllOpen;
    var last := |states| - 1;
    assert |states| == |actions| + 1 by { RunLength(cfg, states, actions); }
    assert AllOpen(states[last]);
    BothOpen(states[last]);
    assert Close(states[last], 0, 1, window);
  }

  lemma {:induction false} BothOpen(s: State)
    requires AllOpen(s)
    ensures forall id :: id in s.rows ==> !Ended(s.rows[id])
  {
  }
}
