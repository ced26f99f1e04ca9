/** Lease safety: while every live runner keeps its heartbeat within the stale interval, a
    session has at most one live runner, and a session that ended is never claimed again. */
module AnalysisLease {
  import opened Wrappers
  import opened AnalysisQueue

  /** A worker polls with a stale limit that no later moment undercuts. */
  ghost predicate PollsAreOld(cfg: Settings, s: State) {
    forall w :: w in s.workers ==> PollIsOld(cfg, s.now, s.workers[w])
  }

  predicate PollIsOld(cfg: Settings, now: int, worker: Worker) {
    match worker
    case Limited(staleBefore) => staleBefore <= now - cfg.stale
    case Polled(staleBefore, claimNow) => staleBefore <= now - cfg.stale && claimNow <= now
    case NoneQueued(staleBefore, claimNow) => staleBefore <= now - cfg.stale && claimNow <= now
    case _ => true
  }

  /** A held session is running; a finished one has ended. */
  ghost predicate HoldersRun(s: State) {
    forall w :: w in s.workers ==> RowFits(s.rows, s.workers[w])
  }

  predicate RowFits(rows: map<SessionId, Session>, worker: Worker) {
    && (Held(worker).Some? ==> Held(worker).value in rows && rows[Held(worker).value].status == Running)
    && (worker.Finishing? ==> worker.session in rows && Ended(rows[worker.session]))
  }

  ghost predicate Exclusive(s: State) {
    forall w, v :: w in s.workers && v in s.workers && w != v && Held(s.workers[w]).Some? ==>
      Held(s.workers[w]) != Held(s.workers[v])
  }

  ghost predicate LeaseInv(cfg: Settings, s: State) {
    PollsAreOld(cfg, s) && HoldersRun(s) && Exclusive(s)
  }

  /** The action takes session `id` for a worker. */
  predicate Claims(a: Action, id: SessionId) {
    (a.ClaimQueued? || a.ClaimStale?) && a.id == id
  }

  ghost predicate HeldByNobody(s: State, id: SessionId) {
    forall w :: w in s.workers ==> Held(s.workers[w]) != Some(id)
  }

  /** A worker's step changes that worker and at most one row, which keeps its identity. */
  lemma {:induction false} WorkerFrame(cfg: Settings, s: State, a: Action, s': State)
    requires Next(cfg, s, a, s') && WorkerOf(a).Some?
    ensures s'.now == s.now && s'.callers == s.callers && s'.owner == s.owner && s'.closed == s.closed && s'.used == s.used
    ensures WorkerOf(a).value in s.workers && s'.workers == s.workers[WorkerOf(a).value := s'.workers[WorkerOf(a).value]]
    ensures s'.rows.Keys == s.rows.Keys
  {
    hide IsOldestQueued, IsOldestStale, Claim, Touch, Ended, IsStale;
    var w := WorkerOf(a).value;
    assert w in s.workers && WorkerStep(cfg, s, a, s'.workers[w], s'.rows);
    assert s' == s.(workers := s.workers[w := s'.workers[w]], rows := s'.rows);
    KeysKept(cfg, s, a, s'.workers[w], s'.rows);
  }

  lemma {:induction false} KeysKept(cfg: Settings, s: State, a: Action, worker: Worker, rows: map<SessionId, Session>)
    requires WorkerOf(a).Some? && WorkerOf(a).value in s.workers && WorkerStep(cfg, s, a, worker, rows)
    ensures rows.Keys == s.rows.Keys
  {
    hide Claim, Touch, Ended, IsStale, NoLater;
  }

  lemma {:induction false} ActorPollIsOld(cfg: Settings, s: State, a: Action, worker: Worker, rows: map<SessionId, Session>)
    requires WorkerOf(a).Some? && WorkerOf(a).value in s.workers && WorkerStep(cfg, s, a, worker, rows)
    requires PollIsOld(cfg, s.now, s.workers[WorkerOf(a).value])
    ensures PollIsOld(cfg, s.now, worker)
  {
    hide Claim, Touch, Ended, IsStale, IsOldestStale, IsOldestQueued;
  }

  lemma {:induction false} PollsStayOld(cfg: Settings, s: State, a: Action, s': State)
    requires Next(cfg, s, a, s') && PollsAreOld(cfg, s)
    ensures PollsAreOld(cfg, s')
  {
    hide WorkerStep;
    if WorkerOf(a).Some? {
      WorkerFrame(cfg, s, a, s');
      ActorPollIsOld(cfg, s, a, s'.workers[WorkerOf(a).value], s'.rows);
    }
    forall w | w in s'.workers
      ensures PollIsOld(cfg, s'.now, s'.workers[w])
    {
      assert w in s.workers ==> PollIsOld(cfg, s.now, s.workers[w]);
    }
  }

  /** Only an overdue runner can lose its session: the heartbeat it wrote last is more than the
      stale interval old at the moment another worker claims. Holds in every run. */
  lemma {:induction false} ClaimTakesOnlyOverdue(cfg: Settings, s: State, a: Action, s': State, w: nat)
    requires Next(cfg, s, a, s') && PollsAreOld(cfg, s) && HoldersRun(s)
    requires w in s.workers && Held(s.workers[w]).Some? && Claims(a, Held(s.workers[w]).value)
    ensures a.ClaimStale?
    ensures var row := s.rows[Held(s.workers[w]).value];
            row.heartbeatAt.Some? ==> s.now - row.heartbeatAt.value > cfg.stale
    ensures !Timely(cfg, s)
  {
    assert RowFits(s.rows, s.workers[w]);
    var id := Held(s.workers[w]).value;
    assert a.id == id;
    assert PollIsOld(cfg, s.now, s.workers[a.w]);
    assert IsStale(s.rows[id], s.workers[a.w].staleBefore);
  }

  /** With timely heartbeats a claim takes a session nobody holds. */
  lemma {:induction false} ClaimTakesFree(cfg: Settings, s: State, a: Action, s': State, id: SessionId)
    requires Next(cfg, s, a, s') && PollsAreOld(cfg, s) && HoldersRun(s) && Timely(cfg, s)
    requires Claims(a, id)
    ensures HeldByNobody(s, id) && id in s.rows && !Ended(s.rows[id])
  {
    forall w | w in s.workers
      ensures Held(s.workers[w]) != Some(id)
    {
      if Held(s.workers[w]) == Some(id) {
        ClaimTakesOnlyOverdue(cfg, s, a, s', w);
      }
    }
  }

  predicate Touches(worker: Worker, id: SessionId) {
    Held(worker) == Some(id) || (worker.Finishing? && worker.session == id)
  }

  /** What one worker step does to a row, by the state it had. */
  ghost predicate RowKept(s: State, w: nat, id: SessionId, rows: map<SessionId, Session>)
    requires w in s.workers && id in s.rows
  {
    && id in rows
    && (Ended(s.rows[id]) && Held(s.workers[w]) != Some(id) ==> Ended(rows[id]))
    && (s.rows[id].status == Running && !Touches(s.workers[w], id) ==> rows[id].status == Running)
  }

  lemma {:induction false} WorkerKeepsRow(cfg: Settings, s: State, a: Action, s': State, id: SessionId)
    requires Next(cfg, s, a, s') && WorkerOf(a).Some? && id in s.rows
    ensures RowKept(s, WorkerOf(a).value, id, s'.rows)
  {
    hide IsOldestQueued, IsOldestStale, IsStale;
    if Claims(a, id) { ClaimedWasOpen(cfg, s, a, s', id); }
  }

  lemma {:induction false} ClaimedWasOpen(cfg: Settings, s: State, a: Action, s': State, id: SessionId)
    requires Next(cfg, s, a, s') && Claims(a, id)
    ensures id in s.rows && (s.rows[id].status == Queued || s.rows[id].status == Running)
  {
    hide NoLater, Claim;
  }

  lemma {:induction false} WorkersApart(s: State, w: nat, v: nat)
    requires HoldersRun(s) && Exclusive(s) && w in s.workers && v in s.workers && v != w
    ensures RowFits(s.rows, s.workers[v])
    ensures Held(s.workers[v]).Some? ==> !Touches(s.workers[w], Held(s.workers[v]).value)
    ensures s.workers[v].Finishing? ==> Held(s.workers[w]) != Some(s.workers[v].session)
  {
    assert RowFits(s.rows, s.workers[v]) && RowFits(s.rows, s.workers[w]);
  }

  /** The other workers' sessions are untouched by a worker's step. */
  lemma {:induction false} OthersFit(cfg: Settings, s: State, a: Action, s': State, v: nat)
    requires Next(cfg, s, a, s') && LeaseInv(cfg, s) && WorkerOf(a).Some?
    requires v in s.workers && v != WorkerOf(a).value
    ensures RowFits(s'.rows, s.workers[v])
  {
    WorkersApart(s, WorkerOf(a).value, v);
    hide Touches, WorkerStep, LeaseInv;
    if Held(s.workers[v]).Some? {
      WorkerKeepsRow(cfg, s, a, s', Held(s.workers[v]).value);
    } else if s.workers[v].Finishing? {
      WorkerKeepsRow(cfg, s, a, s', s.workers[v].session);
    }
  }

  lemma {:induction false} ActorFits(cfg: Settings, s: State, a: Action, s': State)
    requires Next(cfg, s, a, s') && LeaseInv(cfg, s) && WorkerOf(a).Some?
    ensures RowFits(s'.rows, s'.workers[WorkerOf(a).value])
  {
    hide IsOldestQueued, IsOldestStale, IsStale, Exclusive, PollsAreOld;
    assert RowFits(s.rows, s.workers[WorkerOf(a).value]);
  }

  /** A worker comes to hold a session only by claiming it. */
  lemma {:induction false} HoldsByClaim(cfg: Settings, s: State, a: Action, s': State)
    requires Next(cfg, s, a, s') && WorkerOf(a).Some?
    ensures var w := WorkerOf(a).value;
            Held(s'.workers[w]).None? || Held(s'.workers[w]) == Held(s.workers[w]) || Claims(a, Held(s'.workers[w]).value)
  {
    hide IsOldestQueued, IsOldestStale;
  }

  lemma {:induction false} StaysExclusive(cfg: Settings, s: State, a: Action, s': State)
    requires Next(cfg, s, a, s') && LeaseInv(cfg, s) && Timely(cfg, s) && WorkerOf(a).Some?
    ensures Exclusive(s')
  {
    hide WorkerStep;
    var w := WorkerOf(a).value;
    HoldsByClaim(cfg, s, a, s');
    if Held(s'.workers[w]).Some? && Claims(a, Held(s'.workers[w]).value) {
      ClaimTakesFree(cfg, s, a, s', Held(s'.workers[w]).value);
    }
  }

  /** A start call inserts sessions under fresh ids and changes no other row. */
  ghost predicate CommitsAreFresh(s: State) {
    && (forall id :: id in s.rows ==> id in s.used)
    && (forall c :: c in s.callers && s.callers[c].Inserted? ==>
        s.callers[c].id in s.used && s.callers[c].id !in s.rows)
    && (forall c, d :: c in s.callers && d in s.callers && c != d && s.callers[c].Inserted? ==>
        s.callers[d].Inserted? ==> s.callers[c].id != s.callers[d].id)
  }

  /** A step of a start call changes that call alone, and rows only when it commits. */
  lemma {:induction false} CallerFrame(cfg: Settings, s: State, a: Action, s': State)
    requires CallerStep(cfg, s, a, s')
    ensures CallerOf(a).Some? && s'.now == s.now && s'.workers == s.workers
    ensures var c := CallerOf(a).value;
            s'.callers == if c in s'.callers then s.callers[c := s'.callers[c]] else s.callers - {c}
    ensures !a.Commit? ==> s'.rows == s.rows && s'.closed == s.closed
    ensures !a.Insert? ==> s'.used == s.used
    ensures !a.Acquire? && !a.Leave? ==> s'.owner == s.owner
    ensures CallerOf(a).value in s'.callers && s'.callers[CallerOf(a).value].Inserted? ==> a.Insert?
  {
    hide IsActive, EndedIds;
  }

  lemma {:induction false} CallerStaysFresh(cfg: Settings, s: State, a: Action, s': State)
    requires CallerStep(cfg, s, a, s') && CommitsAreFresh(s)
    ensures CommitsAreFresh(s')
  {
    hide CallerStep;
    CallerFrame(cfg, s, a, s');
    if a.Insert? || a.Commit? { InsertsFreshId(cfg, s, a, s'); }
  }

  lemma {:induction false} InsertsFreshId(cfg: Settings, s: State, a: Action, s': State)
    requires CallerStep(cfg, s, a, s') && (a.Insert? || a.Commit?)
    ensures a.c in s.callers && a.c in s'.callers
    ensures a.Insert? ==> a.id !in s.used && s'.used == s.used + {a.id} && s'.callers[a.c].id == a.id
    ensures a.Commit? ==> s.callers[a.c].Inserted? && s'.callers[a.c].Leaving?
    ensures a.Commit? ==> s'.rows.Keys == s.rows.Keys + {s.callers[a.c].id}
  {
    hide IsActive, EndedIds;
  }

  lemma {:induction false} CommitsStayFresh(cfg: Settings, s: State, a: Action, s': State)
    requires Next(cfg, s, a, s') && CommitsAreFresh(s)
    ensures CommitsAreFresh(s')
  {
    hide WorkerStep, CallerStep;
    if WorkerOf(a).Some? {
      WorkerFrame(cfg, s, a, s');
    } else if CallerStep(cfg, s, a, s') {
      CallerStaysFresh(cfg, s, a, s');
    }
  }

  lemma {:induction false} RowsOnlyGrow(cfg: Settings, s: State, a: Action, s': State)
    requires Next(cfg, s, a, s') && CommitsAreFresh(s) && WorkerOf(a).None?
    ensures forall id :: id in s.rows ==> id in s'.rows && s'.rows[id] == s.rows[id]
    ensures forall w :: w in s'.workers ==> (w in s.workers && s'.workers[w] == s.workers[w]) || s'.workers[w].Idle?
  {
  }

  lemma {:induction false} LeaseStep(cfg: Settings, s: State, a: Action, s': State)
    requires Next(cfg, s, a, s') && LeaseInv(cfg, s) && CommitsAreFresh(s) && Timely(cfg, s)
    ensures LeaseInv(cfg, s')
  {
    hide WorkerStep, CallerStep;
    PollsStayOld(cfg, s, a, s');
    if WorkerOf(a).Some? {
      WorkerFrame(cfg, s, a, s');
      StaysExclusive(cfg, s, a, s');
      ActorFits(cfg, s, a, s');
      forall v | v in s'.workers
        ensures RowFits(s'.rows, s'.workers[v])
      {
        if v != WorkerOf(a).value { OthersFit(cfg, s, a, s', v); }
      }
    } else {
      RowsOnlyGrow(cfg, s, a, s');
      forall v | v in s'.workers
        ensures RowFits(s'.rows, s'.workers[v])
      {
        assert v in s.workers ==> RowFits(s.rows, s.workers[v]);
      }
    }
  }

  lemma {:induction false} EndedStep(cfg: Settings, s: State, a: Action, s': State, id: SessionId)
    requires Next(cfg, s, a, s') && LeaseInv(cfg, s) && CommitsAreFresh(s) && Timely(cfg, s)
    requires id in s.rows && Ended(s.rows[id])
    ensures id in s'.rows && Ended(s'.rows[id]) && !Claims(a, id) && HeldByNobody(s, id)
  {
    hide WorkerStep, CallerStep, Exclusive, PollsAreOld;
    forall w | w in s.workers
      ensures Held(s.workers[w]) != Some(id)
    {
      assert RowFits(s.rows, s.workers[w]);
    }
    if WorkerOf(a).Some? {
      WorkerKeepsRow(cfg, s, a, s', id);
      if Claims(a, id) { ClaimTakesFree(cfg, s, a, s', id); }
    } else {
      RowsOnlyGrow(cfg, s, a, s');
    }
  }

  // ---- over runs -----------------------------------------------------------------------------

  lemma {:induction false} AlwaysFresh(cfg: Settings, states: seq<State>, actions: seq<Action>, i: nat)
    requires Run(cfg, states, actions) && i < |states|
    ensures CommitsAreFresh(states[i]) && PollsAreOld(cfg, states[i])
  {
    hide Next;
    if i > 0 {
      AlwaysFresh(cfg, states, actions, i - 1);
      assert Next(cfg, states[i - 1], actions[i - 1], states[i - 1 + 1]);
      CommitsStayFresh(cfg, states[i - 1], actions[i - 1], states[i]);
      PollsStayOld(cfg, states[i - 1], actions[i - 1], states[i]);
    }
  }

  lemma {:induction false} AlwaysLeased(cfg: Settings, states: seq<State>, actions: seq<Action>, i: nat)
    requires Run(cfg, states, actions) && i < |states|
    requires forall k :: 0 <= k < i ==> Timely(cfg, states[k])
    ensures LeaseInv(cfg, states[i])
  {
    hide Next, Timely;
    if i > 0 {
      AlwaysLeased(cfg, states, actions, i - 1);
      AlwaysFresh(cfg, states, actions, i - 1);
      assert Next(cfg, states[i - 1], actions[i - 1], states[i - 1 + 1]);
      LeaseStep(cfg, states[i - 1], actions[i - 1], states[i]);
    }
  }

  /** In every run whose live runners beat in time, a session has at most one live runner. Two
      runners of one session prove that an earlier heartbeat was overdue. */
  lemma {:induction false} OneLiveRunner(cfg: Settings, states: seq<State>, actions: seq<Action>, i: nat, w: nat, v: nat)
    requires Run(cfg, states, actions) && i < |states|
    requires forall k :: 0 <= k < i ==> Timely(cfg, states[k])
    requires w in states[i].workers && v in states[i].workers && w != v
    ensures Held(states[i].workers[w]).Some? ==> Held(states[i].workers[w]) != Held(states[i].workers[v])
  {
    AlwaysLeased(cfg, states, actions, i);
  }

  /** A completed or failed session stays so, is claimed by no later step and is held by no worker. */
  lemma {:induction false} EndedForGood(cfg: Settings, states: seq<State>, actions: seq<Action>, i: nat, j: nat, id: SessionId)
    requires TimelyRun(cfg, states, actions) && i <= j < |states|
    requires id in states[i].rows && Ended(states[i].rows[id])
    ensures id in states[j].rows && Ended(states[j].rows[id]) && HeldByNobody(states[j], id)
    ensures j < |actions| ==> !Claims(actions[j], id)
    decreases j - i
  {
    hide Next, Timely;
    if i < j {
      EndedForGood(cfg, states, actions, i, j - 1, id);
      AlwaysLeased(cfg, states, actions, j - 1);
      AlwaysFresh(cfg, states, actions, j - 1);
      assert Next(cfg, states[j - 1], actions[j - 1], states[j - 1 + 1]);
      EndedStep(cfg, states[j - 1], actions[j - 1], states[j], id);
    }
    AlwaysLeased(cfg, states, actions, j);
    AlwaysFresh(cfg, states, actions, j);
    forall w | w in states[j].workers
      ensures Held(states[j].workers[w]) != Some(id)
    {
      assert RowFits(states[j].rows, states[j].workers[w]);
    }
    if j < |actions| {
      assert Next(cfg, states[j], actions[j], states[j + 1]);
      EndedStep(cfg, states[j], actions[j], states[j + 1], id);
    }
  }
}
