/** Session creation dedup: in one process, whatever the interleaving of start calls and
    workers, two sessions of one analysis key created within the active window of each other
    mean that the earlier had ended when the later call looked for an active session. */
module AnalysisCreation {
  import opened Wrappers
  import opened AnalysisQueue
  import opened AnalysisLease

  // ---- invariant -----------------------------------------------------------------------------

  predicate RowTimes(cfg: Settings, now: int, row: Session) {
    row.createdAt <= now && row.createdAt - cfg.claimDelay <= row.updatedAt
  }

  predicate PulseTimes(rows: map<SessionId, Session>, worker: Worker) {
    && (worker.Claimed? || InRun(worker) ==> worker.session in rows)
    && (InRun(worker) && !worker.pulse.Quiet? ==> rows[worker.session].createdAt <= worker.pulse.at)
  }

  ghost predicate Times(cfg: Settings, s: State) {
    && (forall id :: id in s.rows ==> RowTimes(cfg, s.now, s.rows[id]))
    && (forall w :: w in s.workers ==> PulseTimes(s.rows, s.workers[w]))
  }

  /** Every session of the key was created by `at`. */
  ghost predicate NoneLater(rows: map<SessionId, Session>, key: string, at: int) {
    forall id :: id in rows && rows[id].key == key ==> rows[id].createdAt <= at
  }

  /** Every session of the key had ended, or was created more than the window before `at`. */
  ghost predicate Settled(cfg: Settings, rows: map<SessionId, Session>, key: string, at: int, closed: set<SessionId>) {
    forall id :: id in rows && rows[id].key == key ==>
      id in closed || rows[id].createdAt + Window(cfg) < at
  }

  function Window(cfg: Settings): int {
    cfg.activeTtl - cfg.claimDelay
  }

  ghost predicate CallerFits(cfg: Settings, s: State, c: nat, caller: Caller) {
    && (!caller.Waiting? ==> caller.key in s.owner && s.owner[caller.key] == c)
    && (caller.Looking? || caller.FreeToInsert? || caller.Inserted? ==>
        caller.at <= s.now && NoneLater(s.rows, caller.key, caller.at))
    && (caller.FreeToInsert? || caller.Inserted? ==> Settled(cfg, s.rows, caller.key, caller.at, caller.closed))
    && (caller.Inserted? ==> caller.at <= caller.createdAt <= s.now)
  }

  ghost predicate CallersFit(cfg: Settings, s: State) {
    forall c :: c in s.callers ==> CallerFits(cfg, s, c, s.callers[c])
  }

  /** `a` was created no later than `b`, and had ended when b's caller looked or is out of the window. */
  predicate Before(cfg: Settings, s: State, a: SessionId, b: SessionId) {
    && a in s.rows && b in s.rows && b in s.closed && s.rows[a].createdAt <= s.rows[b].createdAt
    && (a in s.closed[b] || s.rows[a].createdAt + Window(cfg) < s.rows[b].createdAt)
  }

  ghost predicate Spaced(cfg: Settings, s: State) {
    && s.closed.Keys == s.rows.Keys
    && forall a, b :: a in s.rows && b in s.rows && a != b && s.rows[a].key == s.rows[b].key ==>
         Before(cfg, s, a, b) || Before(cfg, s, b, a)
  }

  ghost predicate CreationInv(cfg: Settings, s: State) {
    Times(cfg, s) && CallersFit(cfg, s) && Spaced(cfg, s) && CommitsAreFresh(s) && PollsAreOld(cfg, s)
  }

  // ---- worker steps keep it -----------------------------------------------------------------

  /** Same sessions, with the key and the creation time they had. */
  ghost predicate SameIdentity(rows: map<SessionId, Session>, rows': map<SessionId, Session>) {
    && rows.Keys == rows'.Keys
    && forall id :: id in rows ==> rows'[id].key == rows[id].key && rows'[id].createdAt == rows[id].createdAt
  }

  lemma {:induction false} WorkerKeepsIdentity(cfg: Settings, s: State, a: Action, s': State)
    requires Next(cfg, s, a, s') && WorkerOf(a).Some?
    ensures SameIdentity(s.rows, s'.rows)
  {
    hide Next;
    WorkerFrame(cfg, s, a, s');
    forall id | id in s.rows
      ensures s'.rows[id].key == s.rows[id].key && s'.rows[id].createdAt == s.rows[id].createdAt
    {
      RowKeepsIdentity(cfg, s, a, s', id);
    }
  }

  lemma {:induction false} RowKeepsIdentity(cfg: Settings, s: State, a: Action, s': State, id: SessionId)
    requires Next(cfg, s, a, s') && WorkerOf(a).Some? && id in s.rows
    ensures id in s'.rows && s'.rows[id].key == s.rows[id].key && s'.rows[id].createdAt == s.rows[id].createdAt
  {
    hide IsOldestQueued, IsOldestStale, IsStale, Ended;
  }

  /** Where the update time of a row comes from. */
  predicate UpdateSource(cfg: Settings, s: State, was: Worker, id: SessionId, before: int, after: int) {
    || after == before || after == s.now
    || ((was.Polled? || was.NoneQueued?) && after == was.claimNow && s.now - was.claimNow <= cfg.claimDelay)
    || (InRun(was) && was.session == id && !was.pulse.Quiet? && after == was.pulse.at)
  }

  lemma {:induction false} UpdateHasSource(cfg: Settings, s: State, a: Action, s': State, id: SessionId)
    requires Next(cfg, s, a, s') && WorkerOf(a).Some? && id in s.rows
    ensures id in s'.rows
    ensures UpdateSource(cfg, s, s.workers[WorkerOf(a).value], id, s.rows[id].updatedAt, s'.rows[id].updatedAt)
  {
    hide IsOldestQueued, IsOldestStale, IsStale, Ended;
  }

  lemma {:induction false} WorkerKeepsRowTimes(cfg: Settings, s: State, a: Action, s': State, id: SessionId)
    requires Next(cfg, s, a, s') && WorkerOf(a).Some? && Times(cfg, s) && id in s.rows
    ensures id in s'.rows && RowTimes(cfg, s'.now, s'.rows[id])
  {
    hide Next;
    WorkerFrame(cfg, s, a, s');
    RowKeepsIdentity(cfg, s, a, s', id);
    UpdateHasSource(cfg, s, a, s', id);
    assert RowTimes(cfg, s.now, s.rows[id]) && PulseTimes(s.rows, s.workers[WorkerOf(a).value]);
  }

  /** A worker keeps its session unless it claims one, and a heartbeat in flight was read now or before. */
  lemma {:induction false} ActorMoves(cfg: Settings, s: State, a: Action, worker: Worker, rows: map<SessionId, Session>)
    requires WorkerOf(a).Some? && WorkerOf(a).value in s.workers && WorkerStep(cfg, s, a, worker, rows)
    ensures var was := s.workers[WorkerOf(a).value];
            && (worker.Claimed? ==> Claims(a, worker.session))
            && (InRun(worker) ==> (InRun(was) || was.Claimed?) && was.session == worker.session)
            && (InRun(worker) && !worker.pulse.Quiet? ==>
                (InRun(was) && (worker.pulse.at == s.now || (!was.pulse.Quiet? && worker.pulse.at == was.pulse.at))))
  {
    hide IsOldestQueued, IsOldestStale, IsStale, Ended, Claim, Touch;
  }

  lemma {:induction false} ActorPulse(cfg: Settings, s: State, a: Action, s': State)
    requires Next(cfg, s, a, s') && WorkerOf(a).Some? && Times(cfg, s)
    ensures PulseTimes(s'.rows, s'.workers[WorkerOf(a).value])
  {
    hide WorkerStep;
    var w := WorkerOf(a).value;
    assert PulseTimes(s.rows, s.workers[w]);
    ActorMoves(cfg, s, a, s'.workers[w], s'.rows);
    if s'.workers[w].Claimed? {
      ClaimedWasOpen(cfg, s, a, s', s'.workers[w].session);
      RowKeepsIdentity(cfg, s, a, s', s'.workers[w].session);
    } else if InRun(s'.workers[w]) {
      assert RowTimes(cfg, s.now, s.rows[s.workers[w].session]);
      RowKeepsIdentity(cfg, s, a, s', s.workers[w].session);
    }
  }

  lemma {:induction false} WorkerKeepsTimes(cfg: Settings, s: State, a: Action, s': State)
    requires Next(cfg, s, a, s') && WorkerOf(a).Some? && Times(cfg, s)
    ensures Times(cfg, s')
  {
    hide Next;
    WorkerFrame(cfg, s, a, s');
    WorkerKeepsIdentity(cfg, s, a, s');
    ActorPulse(cfg, s, a, s');
    forall id | id in s'.rows
      ensures RowTimes(cfg, s'.now, s'.rows[id])
    {
      WorkerKeepsRowTimes(cfg, s, a, s', id);
    }
    forall w | w in s'.workers
      ensures PulseTimes(s'.rows, s'.workers[w])
    {
      assert PulseTimes(s.rows, s.workers[w]);
    }
  }

  lemma {:induction false} SameCallersFit(cfg: Settings, s: State, s': State, c: nat, caller: Caller)
    requires SameIdentity(s.rows, s'.rows) && s'.now >= s.now && s'.owner == s.owner
    requires CallerFits(cfg, s, c, caller)
    ensures CallerFits(cfg, s', c, caller)
  {
  }

  lemma {:induction false} SameSpaced(cfg: Settings, s: State, s': State)
    requires SameIdentity(s.rows, s'.rows) && s'.closed == s.closed && Spaced(cfg, s)
    ensures Spaced(cfg, s')
  {
    forall a, b | a in s'.rows && b in s'.rows && a != b && s'.rows[a].key == s'.rows[b].key
      ensures Before(cfg, s', a, b) || Before(cfg, s', b, a)
    {
      assert Before(cfg, s, a, b) || Before(cfg, s, b, a);
    }
  }

  lemma {:induction false} WorkerKeepsInv(cfg: Settings, s: State, a: Action, s': State)
    requires Next(cfg, s, a, s') && WorkerOf(a).Some? && CreationInv(cfg, s)
    ensures CreationInv(cfg, s')
  {
    hide Next, CallerFits, Spaced, Times, SameIdentity, PollsAreOld, CommitsAreFresh;
    WorkerFrame(cfg, s, a, s');
    WorkerKeepsIdentity(cfg, s, a, s');
    WorkerKeepsTimes(cfg, s, a, s');
    SameSpaced(cfg, s, s');
    CommitsStayFresh(cfg, s, a, s');
    PollsStayOld(cfg, s, a, s');
    forall c | c in s'.callers
      ensures CallerFits(cfg, s', c, s'.callers[c])
    {
      SameCallersFit(cfg, s, s', c, s'.callers[c]);
    }
  }

  // ---- start calls keep it -------------------------------------------------------------------

  /** What the call found: nothing active means every session of the key is settled. */
  lemma {:induction false} NothingActiveSettles(cfg: Settings, s: State, key: string, at: int)
    requires Times(cfg, s)
    requires forall id :: id in s.rows ==> !IsActive(s.rows[id], key, at - cfg.activeTtl)
    ensures Settled(cfg, s.rows, key, at, EndedIds(s.rows, key))
  {
    forall id | id in s.rows && s.rows[id].key == key
      ensures id in EndedIds(s.rows, key) || s.rows[id].createdAt + Window(cfg) < at
    {
      assert !IsActive(s.rows[id], key, at - cfg.activeTtl) && RowTimes(cfg, s.now, s.rows[id]);
    }
  }

  lemma {:induction false} ActorCallerFits(cfg: Settings, s: State, a: Action, s': State)
    requires CallerStep(cfg, s, a, s') && CreationInv(cfg, s) && !a.Commit?
    ensures CallerOf(a).value in s'.callers ==>
            CallerFits(cfg, s', CallerOf(a).value, s'.callers[CallerOf(a).value])
  {
    hide IsActive, EndedIds, Spaced, CommitsAreFresh, PollsAreOld, Settled;
    var c := CallerOf(a).value;
    if c in s.callers { assert CallerFits(cfg, s, c, s.callers[c]); }
    if a.FindNoActive? { NothingActiveSettles(cfg, s, s.callers[c].key, s.callers[c].at); }
    if a.ReadClock? {
      forall id | id in s.rows && s.rows[id].key == s.callers[c].key
        ensures s.rows[id].createdAt <= s.now
      {
        assert RowTimes(cfg, s.now, s.rows[id]);
      }
    }
  }

  /** A lock that another call holds cannot be taken or released by this one. */
  lemma {:induction false} OtherCallerFits(cfg: Settings, s: State, a: Action, s': State, d: nat)
    requires CallerStep(cfg, s, a, s') && CallersFit(cfg, s) && !a.Commit?
    requires d in s.callers && d != CallerOf(a).value
    ensures CallerFits(cfg, s', d, s.callers[d])
  {
    hide IsActive, EndedIds, Settled, NoneLater;
    assert CallerFits(cfg, s, d, s.callers[d]);
    assert CallerOf(a).value in s.callers ==> CallerFits(cfg, s, CallerOf(a).value, s.callers[CallerOf(a).value]);
  }

  lemma {:induction false} QuietCallKeepsInv(cfg: Settings, s: State, a: Action, s': State)
    requires CallerStep(cfg, s, a, s') && CreationInv(cfg, s) && !a.Commit?
    ensures Times(cfg, s') && CallersFit(cfg, s') && Spaced(cfg, s')
  {
    CallerFrame(cfg, s, a, s');
    ActorCallerFits(cfg, s, a, s');
    assert SameIdentity(s.rows, s'.rows);
    SameSpaced(cfg, s, s');
    hide CallerStep, CallerFits, Spaced, Times, SameIdentity, PollsAreOld, CommitsAreFresh;
    TimesCarry(cfg, s, s');
    forall d | d in s'.callers
      ensures CallerFits(cfg, s', d, s'.callers[d])
    {
      if d != CallerOf(a).value { OtherCallerFits(cfg, s, a, s', d); }
    }
  }

  lemma {:induction false} TimesCarry(cfg: Settings, s: State, s': State)
    requires Times(cfg, s) && s'.rows == s.rows && s'.now >= s.now
    requires forall w :: w in s'.workers ==> (w in s.workers && s'.workers[w] == s.workers[w]) || s'.workers[w].Idle?
    ensures Times(cfg, s')
  {
    forall id | id in s'.rows
      ensures RowTimes(cfg, s'.now, s'.rows[id])
    {
      assert RowTimes(cfg, s.now, s.rows[id]);
    }
  }

  // ---- the commit ----------------------------------------------------------------------------

  /** The state after `caller` commits its session. */
  ghost predicate Commits(s: State, c: nat, caller: Caller, s': State) {
    && caller.Inserted? && c in s.callers && s.callers[c] == caller
    && s'.rows == s.rows[caller.id := Session(caller.key, Queued, caller.createdAt, caller.createdAt, None)]
    && s'.closed == s.closed[caller.id := caller.closed]
    && s'.callers == s.callers[c := Leaving(caller.key)]
    && s'.now == s.now && s'.owner == s.owner && s'.workers == s.workers
  }

  lemma {:induction false} CommitKeepsTimes(cfg: Settings, s: State, c: nat, caller: Caller, s': State)
    requires Commits(s, c, caller, s') && caller.id !in s.rows && Times(cfg, s) && CallerFits(cfg, s, c, caller)
    ensures Times(cfg, s')
  {
    hide Settled, NoneLater;
    forall id | id in s'.rows
      ensures RowTimes(cfg, s'.now, s'.rows[id])
    {
      assert id != caller.id ==> RowTimes(cfg, s.now, s.rows[id]);
    }
    forall w | w in s'.workers
      ensures PulseTimes(s'.rows, s'.workers[w])
    {
      assert PulseTimes(s.rows, s.workers[w]);
    }
  }

  lemma {:induction false} CommitKeepsCallers(cfg: Settings, s: State, c: nat, caller: Caller, s': State, d: nat)
    requires Commits(s, c, caller, s') && caller.id !in s.rows && CallersFit(cfg, s) && d in s.callers
    ensures CallerFits(cfg, s', d, s'.callers[d])
  {
    assert CallerFits(cfg, s, c, caller) && CallerFits(cfg, s, d, s.callers[d]);
  }

  /** The new session comes after every session of its key. */
  lemma {:induction false} CommitKeepsSpacing(cfg: Settings, s: State, c: nat, caller: Caller, s': State)
    requires Commits(s, c, caller, s') && caller.id !in s.rows && Spaced(cfg, s) && CallerFits(cfg, s, c, caller)
    ensures Spaced(cfg, s')
  {
    assert NoneLater(s.rows, caller.key, caller.at) && Settled(cfg, s.rows, caller.key, caller.at, caller.closed);
    forall a, b | a in s'.rows && b in s'.rows && a != b && s'.rows[a].key == s'.rows[b].key
      ensures Before(cfg, s', a, b) || Before(cfg, s', b, a)
    {
      if a != caller.id && b != caller.id {
        assert Before(cfg, s, a, b) || Before(cfg, s, b, a);
      } else {
        var prior := if a == caller.id then b else a;
        assert prior in s.rows && s.rows[prior].key == caller.key;
        assert Before(cfg, s', prior, caller.id);
      }
    }
  }

  lemma {:induction false} CommitKeepsInv(cfg: Settings, s: State, a: Action, s': State)
    requires CallerStep(cfg, s, a, s') && CreationInv(cfg, s) && a.Commit?
    ensures Times(cfg, s') && CallersFit(cfg, s') && Spaced(cfg, s')
  {
    var caller := s.callers[a.c];
    assert Commits(s, a.c, caller, s') && caller.id !in s.rows && CallerFits(cfg, s, a.c, caller);
    hide CallerStep, CallerFits, Spaced, Times, Commits, PollsAreOld, CommitsAreFresh;
    CommitKeepsTimes(cfg, s, a.c, caller, s');
    CommitKeepsSpacing(cfg, s, a.c, caller, s');
    assert s'.callers.Keys == s.callers.Keys by { CallerFrame(cfg, s, a, s'); InsertsFreshId(cfg, s, a, s'); }
    forall d | d in s'.callers
      ensures CallerFits(cfg, s', d, s'.callers[d])
    {
      CommitKeepsCallers(cfg, s, a.c, caller, s', d);
    }
  }

  // ---- over runs -----------------------------------------------------------------------------

  lemma {:induction false} OutsideKeepsInv(cfg: Settings, s: State, a: Action, s': State)
    requires Next(cfg, s, a, s') && (a.Tick? || a.Spawn? || a.Crash?) && CreationInv(cfg, s)
    ensures Times(cfg, s') && CallersFit(cfg, s') && Spaced(cfg, s')
  {
    hide CallerFits, Spaced, Times, PollsAreOld, CommitsAreFresh;
    assert SameIdentity(s.rows, s'.rows);
    SameSpaced(cfg, s, s');
    TimesCarry(cfg, s, s');
    forall c | c in s'.callers
      ensures CallerFits(cfg, s', c, s'.callers[c])
    {
      SameCallersFit(cfg, s, s', c, s.callers[c]);
    }
  }

  lemma {:induction false} CreationStep(cfg: Settings, s: State, a: Action, s': State)
    requires Next(cfg, s, a, s') && CreationInv(cfg, s)
    ensures CreationInv(cfg, s')
  {
    hide WorkerStep, CallerStep, CallersFit, Spaced, Times, PollsAreOld, CommitsAreFresh;
    CommitsStayFresh(cfg, s, a, s');
    PollsStayOld(cfg, s, a, s');
    if WorkerOf(a).Some? {
      WorkerKeepsInv(cfg, s, a, s');
    } else if a.Tick? || a.Spawn? || a.Crash? {
      OutsideKeepsInv(cfg, s, a, s');
    } else if a.Commit? {
      CommitKeepsInv(cfg, s, a, s');
    } else {
      QuietCallKeepsInv(cfg, s, a, s');
    }
  }

  lemma {:induction false} AlwaysSpaced(cfg: Settings, states: seq<State>, actions: seq<Action>, i: nat)
    requires Run(cfg, states, actions) && i < |states|
    ensures CreationInv(cfg, states[i])
  {
    if i > 0 {
      hide Next, CreationInv;
      AlwaysSpaced(cfg, states, actions, i - 1);
      assert Next(cfg, states[i - 1], actions[i - 1], states[i - 1 + 1]);
      CreationStep(cfg, states[i - 1], actions[i - 1], states[i]);
    }
  }

  /** Step j is a start call for the key that finds no active session while exactly `closed` had ended. */
  predicate LookedAt(states: seq<State>, actions: seq<Action>, j: int, key: string, closed: set<SessionId>) {
    && 0 <= j < |actions| && j < |states| && actions[j].FindNoActive?
    && actions[j].c in states[j].callers && states[j].callers[actions[j].c].key == key
    && closed == EndedIds(states[j].rows, key)
  }

  ghost predicate Looked(states: seq<State>, actions: seq<Action>, i: nat, key: string, closed: set<SessionId>) {
    exists j :: 0 <= j < i && LookedAt(states, actions, j, key, closed)
  }

  ghost predicate HistoryHolds(states: seq<State>, actions: seq<Action>, i: nat)
    requires i < |states|
  {
    && (forall c :: c in states[i].callers && (states[i].callers[c].FreeToInsert? || states[i].callers[c].Inserted?) ==>
        Looked(states, actions, i, states[i].callers[c].key, states[i].callers[c].closed))
    && (forall b :: b in states[i].rows && b in states[i].closed ==>
        Looked(states, actions, i, states[i].rows[b].key, states[i].closed[b]))
  }

  lemma {:induction false} LookedStays(states: seq<State>, actions: seq<Action>, i: nat, key: string, closed: set<SessionId>)
    requires i > 0 && Looked(states, actions, i - 1, key, closed)
    ensures Looked(states, actions, i, key, closed)
  {
  }

  lemma {:induction false} CallerHistory(cfg: Settings, states: seq<State>, actions: seq<Action>, i: nat, c: nat)
    requires Run(cfg, states, actions) && 0 < i < |states| && HistoryHolds(states, actions, i - 1)
    requires CallerStep(cfg, states[i - 1], actions[i - 1], states[i])
    requires c in states[i].callers && (states[i].callers[c].FreeToInsert? || states[i].callers[c].Inserted?)
    ensures Looked(states, actions, i, states[i].callers[c].key, states[i].callers[c].closed)
  {
    hide IsActive, Next, EndedIds, Looked;
    var s, a := states[i - 1], actions[i - 1];
    CallerFrame(cfg, s, a, states[i]);
    if c == CallerOf(a).value && a.FindNoActive? {
      LooksNow(cfg, states, actions, i);
    } else {
      assert c in s.callers && (s.callers[c].FreeToInsert? || s.callers[c].Inserted?);
      LookedStays(states, actions, i, s.callers[c].key, s.callers[c].closed);
    }
  }

  lemma {:induction false} LooksNow(cfg: Settings, states: seq<State>, actions: seq<Action>, i: nat)
    requires Run(cfg, states, actions) && 0 < i < |states|
    requires CallerStep(cfg, states[i - 1], actions[i - 1], states[i]) && actions[i - 1].FindNoActive?
    ensures var c := actions[i - 1].c;
            && c in states[i].callers && states[i].callers[c].FreeToInsert?
            && Looked(states, actions, i, states[i].callers[c].key, states[i].callers[c].closed)
  {
    hide IsActive, Next, EndedIds;
    var c := actions[i - 1].c;
    assert LookedAt(states, actions, i - 1, states[i].callers[c].key, states[i].callers[c].closed);
  }

  lemma {:induction false} RowHistory(cfg: Settings, states: seq<State>, actions: seq<Action>, i: nat, b: SessionId)
    requires Run(cfg, states, actions) && 0 < i < |states| && HistoryHolds(states, actions, i - 1)
    requires CallerStep(cfg, states[i - 1], actions[i - 1], states[i]) && CommitsAreFresh(states[i - 1])
    requires b in states[i].rows && b in states[i].closed
    ensures Looked(states, actions, i, states[i].rows[b].key, states[i].closed[b])
  {
    hide IsActive, Next, EndedIds, Looked;
    var s, a := states[i - 1], actions[i - 1];
    CallerFrame(cfg, s, a, states[i]);
    if a.Commit? && b == s.callers[a.c].id {
      LookedStays(states, actions, i, s.callers[a.c].key, s.callers[a.c].closed);
    } else {
      LookedStays(states, actions, i, s.rows[b].key, s.closed[b]);
    }
  }

  lemma {:induction false} HistoryStep(cfg: Settings, states: seq<State>, actions: seq<Action>, i: nat)
    requires Run(cfg, states, actions) && 0 < i < |states| && HistoryHolds(states, actions, i - 1)
    requires Next(cfg, states[i - 1], actions[i - 1], states[i]) && CommitsAreFresh(states[i - 1])
    ensures HistoryHolds(states, actions, i)
  {
    var s, a, s' := states[i - 1], actions[i - 1], states[i];
    hide WorkerStep, CallerStep, Looked, Run, CommitsAreFresh;
    if WorkerOf(a).Some? {
      WorkerFrame(cfg, s, a, s');
      WorkerKeepsIdentity(cfg, s, a, s');
    }
    forall c | c in s'.callers && (s'.callers[c].FreeToInsert? || s'.callers[c].Inserted?)
      ensures Looked(states, actions, i, s'.callers[c].key, s'.callers[c].closed)
    {
      if CallerStep(cfg, s, a, s') {
        CallerHistory(cfg, states, actions, i, c);
      } else {
        LookedStays(states, actions, i, s.callers[c].key, s.callers[c].closed);
      }
    }
    forall b | b in s'.rows && b in s'.closed
      ensures Looked(states, actions, i, s'.rows[b].key, s'.closed[b])
    {
      if CallerStep(cfg, s, a, s') {
        RowHistory(cfg, states, actions, i, b);
      } else {
        LookedStays(states, actions, i, s.rows[b].key, s.closed[b]);
      }
    }
  }

  lemma {:induction false} AlwaysLooked(cfg: Settings, states: seq<State>, actions: seq<Action>, i: nat)
    requires Run(cfg, states, actions) && i < |states|
    ensures HistoryHolds(states, actions, i)
  {
    if i > 0 {
      hide Next, HistoryHolds, CommitsAreFresh;
      AlwaysLooked(cfg, states, actions, i - 1);
      AlwaysFresh(cfg, states, actions, i - 1);
      assert Next(cfg, states[i - 1], actions[i - 1], states[i - 1 + 1]);
      HistoryStep(cfg, states, actions, i);
    }
  }

  /** Step j < i is a look-up for b's key, on whose outcome b was inserted, that saw `a` ended. */
  ghost predicate SawEnded(states: seq<State>, actions: seq<Action>, i: nat, a: SessionId, b: SessionId, j: nat)
    requires i < |states|
  {
    && j < i && b in states[i].rows && b in states[i].closed
    && LookedAt(states, actions, j, states[i].rows[b].key, states[i].closed[b])
    && a in states[j].rows && Ended(states[j].rows[a])
  }

  /** Two sessions of one key, created within the window of each other: a look-up that led to the
      later one saw the earlier one ended. When both carry the same creation time either one may
      be the earlier. */
  lemma {:induction false} CreationDedup(cfg: Settings, states: seq<State>, actions: seq<Action>, i: nat, a: SessionId, b: SessionId)
      returns (j: nat)
    requires Run(cfg, states, actions) && i < |states|
    requires a in states[i].rows && b in states[i].rows && a != b && states[i].rows[a].key == states[i].rows[b].key
    requires states[i].rows[a].createdAt <= states[i].rows[b].createdAt <= states[i].rows[a].createdAt + Window(cfg)
    ensures SawEnded(states, actions, i, a, b, j)
            || (states[i].rows[a].createdAt == states[i].rows[b].createdAt && SawEnded(states, actions, i, b, a, j))
  {
    hide Run, CallersFit, Times, CommitsAreFresh, PollsAreOld;
    AlwaysSpaced(cfg, states, actions, i);
    AlwaysLooked(cfg, states, actions, i);
    var s := states[i];
    var first, second := a, b;
    if !Before(cfg, s, a, b) { first, second := b, a; }
    assert first in s.closed[second] && Looked(states, actions, i, s.rows[second].key, s.closed[second]);
    j :| 0 <= j < i && LookedAt(states, actions, j, s.rows[second].key, s.closed[second]);
    assert first in EndedIds(states[j].rows, s.rows[second].key);
  }

  /** Some look-up that led to b saw a ended. */
  ghost predicate SomeLookSawEnded(states: seq<State>, actions: seq<Action>, i: nat, a: SessionId, b: SessionId)
    requires i < |states|
  {
    exists j: nat :: SawEnded(states, actions, i, a, b, j)
  }

  /** Creation dedup for a window: of two sessions of one key created within it, the earlier had
      ended when the later call looked. */
  ghost predicate DedupsWithin(states: seq<State>, actions: seq<Action>, window: int) {
    forall i, a, b :: 0 <= i < |states| && Close(states[i], a, b, window) ==>
      || SomeLookSawEnded(states, actions, i, a, b)
      || (states[i].rows[a].createdAt == states[i].rows[b].createdAt && SomeLookSawEnded(states, actions, i, b, a))
  }

  predicate Close(s: State, a: SessionId, b: SessionId, window: int) {
    && a in s.rows && b in s.rows && a != b && s.rows[a].key == s.rows[b].key
    && s.rows[a].createdAt <= s.rows[b].createdAt <= s.rows[a].createdAt + window
  }

  lemma {:induction false} AlwaysDedups(cfg: Settings, states: seq<State>, actions: seq<Action>, window: int)
    requires Run(cfg, states, actions) && window <= Window(cfg)
    ensures DedupsWithin(states, actions, window)
  {
    hide Run, SawEnded;
    forall i, a, b | 0 <= i < |states| && Close(states[i], a, b, window)
      ensures || SomeLookSawEnded(states, actions, i, a, b)
              || (states[i].rows[a].createdAt == states[i].rows[b].createdAt && SomeLookSawEnded(states, actions, i, b, a))
    {
      var j := CreationDedup(cfg, states, actions, i, a, b);
    }
  }

  /** With timely workers, two sessions of one key that are both still open were created further
      apart than the window: there is at most one open session per key in a window. */
  lemma {:induction false} OneOpenSessionPerWindow(cfg: Settings, states: seq<State>, actions: seq<Action>, i: nat, a: SessionId, b: SessionId)
    requires TimelyRun(cfg, states, actions) && i < |states|
    requires a in states[i].rows && b in states[i].rows && a != b && states[i].rows[a].key == states[i].rows[b].key
    requires !Ended(states[i].rows[a]) && !Ended(states[i].rows[b])
    requires states[i].rows[a].createdAt <= states[i].rows[b].createdAt
    ensures states[i].rows[b].createdAt - states[i].rows[a].createdAt > Window(cfg)
  {
    if states[i].rows[b].createdAt <= states[i].rows[a].createdAt + Window(cfg) {
      hide Run, LookedAt;
      var j := CreationDedup(cfg, states, actions, i, a, b);
      var ended := if SawEnded(states, actions, i, a, b, j) then a else b;
      EndedForGood(cfg, states, actions, j, i, ended);
    }
  }

  /** Open sessions of one key are more than the window apart. */
  ghost predicate OpenSpaced(states: seq<State>, window: int) {
    forall i, a, b :: 0 <= i < |states| && Close(states[i], a, b, window) ==>
      Ended(states[i].rows[a]) || Ended(states[i].rows[b])
  }

  lemma {:induction false} AlwaysOpenSpaced(cfg: Settings, states: seq<State>, actions: seq<Action>, window: int)
    requires TimelyRun(cfg, states, actions) && window <= Window(cfg)
    ensures OpenSpaced(states, window)
  {
    hide TimelyRun;
    forall i, a, b | 0 <= i < |states| && Close(states[i], a, b, window) && !Ended(states[i].rows[a])
      ensures Ended(states[i].rows[b])
    {
      if !Ended(states[i].rows[b]) {
        OneOpenSessionPerWindow(cfg, states, actions, i, a, b);
      }
    }
  }
}
