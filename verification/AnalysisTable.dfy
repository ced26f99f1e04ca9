/** The session table as the statements of analysis_repository.py and analysis_service.py change
    it, each method being one transaction. Each method is proved to be the step of the state
    machine that stands for it, or the steps with nobody in between. */
module AnalysisTable {
  import opened Wrappers
  import opened AnalysisQueue

  /** What a start call answers. */
  datatype Started =
    | ReportIsFresh
    | Reused(id: SessionId)
    | Created(id: SessionId)

  lemma {:induction false} OldestExists(times: map<SessionId, int>, ids: set<SessionId>) returns (first: SessionId)
    requires ids != {} && ids <= times.Keys
    ensures first in ids && forall id :: id in ids ==> NoLater(times[first], first, times[id], id)
    decreases |ids|
  {
    var some :| some in ids;
    var rest := ids - {some};
    if rest == {} {
      first := some;
      assert ids == {some};
    } else {
      var other := OldestExists(times, rest);
      first := if NoLater(times[some], some, times[other], other) then some else other;
      forall id | id in ids
        ensures NoLater(times[first], first, times[id], id)
      {
        if id != some {
          assert id in rest && NoLater(times[other], other, times[id], id);
        }
      }
    }
  }

  lemma {:induction false} SomeOldestQueued(rows: map<SessionId, Session>)
    requires exists id :: id in rows && rows[id].status == Queued
    ensures exists id :: id in rows && IsOldestQueued(rows, id)
  {
    var ids := set id | id in rows && rows[id].status == Queued;
    var some :| some in rows && rows[some].status == Queued;
    assert some in ids;
    var times := map id | id in rows :: rows[id].createdAt;
    var first := OldestExists(times, ids);
    forall j | j in rows && rows[j].status == Queued
      ensures NoLater(rows[first].createdAt, first, rows[j].createdAt, j)
    {
      assert j in ids && NoLater(times[first], first, times[j], j);
    }
    assert IsOldestQueued(rows, first);
  }

  lemma {:induction false} SomeOldestStale(rows: map<SessionId, Session>, before: int)
    requires exists id :: id in rows && IsStale(rows[id], before)
    ensures exists id :: id in rows && IsOldestStale(rows, id, before)
  {
    var ids := set id | id in rows && IsStale(rows[id], before);
    var some :| some in rows && IsStale(rows[some], before);
    assert some in ids;
    var times := map id | id in rows :: rows[id].updatedAt;
    var first := OldestExists(times, ids);
    forall j | j in rows && IsStale(rows[j], before)
      ensures NoLater(rows[first].updatedAt, first, rows[j].updatedAt, j)
    {
      assert j in ids && NoLater(times[first], first, times[j], j);
    }
    assert IsOldestStale(rows, first, before);
  }

  predicate IsNewestActive(rows: map<SessionId, Session>, id: SessionId, key: string, after: int) {
    && id in rows && IsActive(rows[id], key, after)
    && forall j :: j in rows && IsActive(rows[j], key, after) ==> rows[j].updatedAt <= rows[id].updatedAt
  }

  lemma {:induction false} SomeNewestActive(rows: map<SessionId, Session>, key: string, after: int)
    requires exists id :: id in rows && IsActive(rows[id], key, after)
    ensures exists id :: id in rows && IsNewestActive(rows, id, key, after)
  {
    var ids := set id | id in rows && IsActive(rows[id], key, after);
    var some :| some in rows && IsActive(rows[some], key, after);
    assert some in ids;
    var times := map id | id in rows :: -rows[id].updatedAt;
    var newest := OldestExists(times, ids);
    forall j | j in rows && IsActive(rows[j], key, after)
      ensures rows[j].updatedAt <= rows[newest].updatedAt
    {
      assert j in ids && NoLater(times[newest], newest, times[j], j);
    }
    assert IsNewestActive(rows, newest, key, after);
  }

  /** The order of the claim statements is total, so two workers that see the same table aim at
      the same session. */
  lemma {:induction false} OldestIsUnique(rows: map<SessionId, Session>, id: SessionId, id': SessionId, before: int)
    ensures IsOldestQueued(rows, id) && IsOldestQueued(rows, id') ==> id == id'
    ensures IsOldestStale(rows, id, before) && IsOldestStale(rows, id', before) ==> id == id'
  {
    assert forall t, t' :: NoLater(t, id, t', id') && NoLater(t', id', t, id) ==> id == id';
  }

  ghost predicate NoneQueuedIn(rows: map<SessionId, Session>) {
    forall id :: id in rows ==> rows[id].status != Queued
  }

  /** The outcome of a claim on `rows`, of which it does not see the locked ones: the oldest queued
      session, else the oldest stale one. */
  ghost predicate ClaimOutcome(rows: map<SessionId, Session>, locked: set<SessionId>, staleBefore: int, now: int,
                               claimed: Option<SessionId>, rows': map<SessionId, Session>) {
    var seen := rows - locked;
    match claimed
    case Some(id) =>
      && (IsOldestQueued(seen, id) || (NoneQueuedIn(seen) && IsOldestStale(seen, id, staleBefore)))
      && rows' == rows[id := Claim(rows[id], now)]
    case None =>
      && NoneQueuedIn(seen) && (forall id :: id in seen ==> !IsStale(seen[id], staleBefore))
      && rows' == rows
  }

  // ---- methods and steps ------------------------------------------------------------------------

  /** Wherever the worker is in this phase and the table and the clock are these, the machine can
      take the step, and it leads to this phase and this table. */
  ghost predicate IsStep(rows: map<SessionId, Session>, now: int, worker: Worker, a: Action,
                         worker': Worker, rows': map<SessionId, Session>)
    requires WorkerOf(a).Some?
  {
    forall cfg: Settings, s: State :: s.rows == rows && s.now == now && At(s, WorkerOf(a).value, worker) ==>
      WorkerStep(cfg, s, a, worker', rows')
  }

  predicate At(s: State, w: nat, worker: Worker) {
    w in s.workers && s.workers[w] == worker
  }

  /** Wherever a start call has drawn this session, its commit leads to this table. */
  ghost predicate IsCommit(rows: map<SessionId, Session>, id: SessionId, key: string, now: int, rows': map<SessionId, Session>) {
    forall cfg: Settings, s: State, c: nat, s': State :: CallerStep(cfg, s, Commit(c), s') ==>
      s.rows == rows && HasDrawn(s, c, id, key, now) ==> s'.rows == rows'
  }

  predicate HasDrawn(s: State, c: nat, id: SessionId, key: string, now: int) {
    && c in s.callers && s.callers[c].Inserted?
    && s.callers[c].id == id && s.callers[c].key == key && s.callers[c].createdAt == now
  }

  predicate IsLooking(s: State, c: nat, key: string, at: int) {
    c in s.callers && s.callers[c] == Looking(key, at)
  }

  /** Wherever a start call looks at these rows, it can take the step that meets this session. */
  ghost predicate FindsActive(rows: map<SessionId, Session>, key: string, at: int, activeTtl: nat, id: SessionId) {
    forall cfg: Settings, s: State, c: nat :: cfg.activeTtl == activeTtl && s.rows == rows && IsLooking(s, c, key, at) ==>
      CallerStep(cfg, s, FindActive(c, id), s.(callers := s.callers[c := Leaving(key)]))
  }

  /** Wherever a start call looks at these rows, it can take the step that meets none. */
  ghost predicate FindsNone(rows: map<SessionId, Session>, key: string, at: int, activeTtl: nat) {
    forall cfg: Settings, s: State, c: nat :: cfg.activeTtl == activeTtl && s.rows == rows && IsLooking(s, c, key, at) ==>
      CallerStep(cfg, s, FindNoActive(c), s.(callers := s.callers[c := FreeToInsert(key, at, EndedIds(rows, key))]))
  }

  lemma {:induction false} LookIsStep(rows: map<SessionId, Session>, key: string, at: int, activeTtl: nat)
    ensures forall id :: id in rows && IsActive(rows[id], key, at - activeTtl) ==> FindsActive(rows, key, at, activeTtl, id)
    ensures (forall id :: id in rows ==> !IsActive(rows[id], key, at - activeTtl)) ==> FindsNone(rows, key, at, activeTtl)
  {
    hide IsActive, EndedIds;
  }

  /** A claim with nobody in between is one or two steps of a worker that has polled. */
  lemma {:induction false} ClaimIsSteps(cfg: Settings, s: State, w: nat, locked: set<SessionId>, staleBefore: int, claimNow: int,
                                        claimed: Option<SessionId>, rows': map<SessionId, Session>)
    requires At(s, w, Polled(staleBefore, claimNow)) && s.now - claimNow <= cfg.claimDelay
    requires ClaimOutcome(s.rows, locked, staleBefore, claimNow, claimed, rows')
    ensures var s1 := s.(workers := s.workers[w := NoneQueued(staleBefore, claimNow)]);
            var seen := s.rows - locked;
            match claimed
            case Some(id) =>
              if IsOldestQueued(seen, id) then WorkerStep(cfg, s, ClaimQueued(w, id, locked), Claimed(id), rows')
              else WorkerStep(cfg, s, FindNoQueued(w, locked), s1.workers[w], s.rows)
                   && WorkerStep(cfg, s1, ClaimStale(w, id, locked), Claimed(id), rows')
            case None =>
              && WorkerStep(cfg, s, FindNoQueued(w, locked), s1.workers[w], s.rows)
              && WorkerStep(cfg, s1, FindNoStale(w, locked), Idle, rows')
  {
    hide IsOldestQueued, IsOldestStale, IsStale;
    var seen := s.rows - locked;
    assert forall j :: j in seen ==> seen[j] == s.rows[j];
  }

  /** A claim made twice in a row, with the second stale limit no later than the first claim,
      never returns the session the first one took. */
  lemma {:induction false} ClaimedOnce(rows: map<SessionId, Session>, locked: set<SessionId>, staleBefore: int, now: int, first: SessionId,
                                       rows': map<SessionId, Session>, locked': set<SessionId>, staleBefore': int, now': int,
                                       second: SessionId, rows'': map<SessionId, Session>)
    requires ClaimOutcome(rows, locked, staleBefore, now, Some(first), rows') && staleBefore' <= now
    requires ClaimOutcome(rows', locked', staleBefore', now', Some(second), rows'')
    ensures first != second
  {
    assert rows'[first].status == Running && !IsStale(rows'[first], staleBefore');
  }

  // ---- the statements in the rows' own fields -----------------------------------------------------

  predicate Open(row: Session) {
    row.status == Queued || row.status == Running
  }

  /** Only this row differs, and of it only status and times. */
  predicate OnlyTimes(rows: map<SessionId, Session>, id: SessionId, rows': map<SessionId, Session>) {
    && id in rows && id in rows' && rows' == rows[id := rows'[id]]
    && rows'[id].key == rows[id].key && rows'[id].createdAt == rows[id].createdAt
  }

  /** A running session whose heartbeat, or update if it never had one, is before the limit. */
  predicate Stale(row: Session, before: int) {
    && row.status == Running
    && (row.heartbeatAt.Some? ==> row.heartbeatAt.value < before)
    && (row.heartbeatAt.None? ==> row.updatedAt < before)
  }

  predicate Earlier(time: int, id: SessionId, time': int, id': SessionId) {
    time < time' || (time == time' && id < id')
  }

  /** The claim takes, of the rows nobody has locked, the queued one created first, else the stale
      one updated first, the lower id on a tie, and stamps it; else it changes nothing. */
  ghost predicate ClaimsByAge(rows: map<SessionId, Session>, locked: set<SessionId>, staleBefore: int, now: int,
                              claimed: Option<SessionId>, rows': map<SessionId, Session>) {
    match claimed
    case Some(id) =>
      && OnlyTimes(rows, id, rows') && id !in locked
      && rows'[id].status == Running && rows'[id].heartbeatAt == Some(now) && rows'[id].updatedAt == now
      && (if rows[id].status == Queued then
            forall j :: j in rows && j !in locked && rows[j].status == Queued && j != id ==>
              Earlier(rows[id].createdAt, id, rows[j].createdAt, j)
          else
            && Stale(rows[id], staleBefore)
            && forall j :: j in rows && j !in locked ==>
                 rows[j].status != Queued && (Stale(rows[j], staleBefore) && j != id ==> Earlier(rows[id].updatedAt, id, rows[j].updatedAt, j)))
    case None =>
      rows' == rows && forall j :: j in rows && j !in locked ==> rows[j].status != Queued && !Stale(rows[j], staleBefore)
  }

  lemma {:induction false} OutcomeIsByAge(rows: map<SessionId, Session>, locked: set<SessionId>, staleBefore: int, now: int,
                                          claimed: Option<SessionId>, rows': map<SessionId, Session>)
    requires ClaimOutcome(rows, locked, staleBefore, now, claimed, rows')
    ensures ClaimsByAge(rows, locked, staleBefore, now, claimed, rows')
  {
    var seen := rows - locked;
    assert forall j :: j in rows && j !in locked ==> j in seen && seen[j] == rows[j];
    assert forall j :: j in seen ==> j in rows && j !in locked && seen[j] == rows[j];
  }

  class SessionTable {
    var rows: map<SessionId, Session>

    constructor ()
      ensures rows == map[]
    {
      rows := map[];
    }

    /** What the commit of a start call does to the table. */
    method CreateAnalysisSessionRecord(id: SessionId, key: string, now: int)
      requires id !in rows
      modifies this
      ensures rows == old(rows)[id := Session(key, Queued, now, now, None)]
      ensures IsCommit(old(rows), id, key, now, rows)
    {
      rows := rows[id := Session(key, Queued, now, now, None)];
    }

    method LoadActiveSessionByKey(key: string, activeAfter: int) returns (found: Option<SessionId>)
      ensures found.None? <==> forall id :: id in rows ==> !IsActive(rows[id], key, activeAfter)
      ensures found.Some? ==> IsNewestActive(rows, found.value, key, activeAfter)
      ensures found.None? <==> forall id :: id in rows && rows[id].key == key && Open(rows[id]) ==> rows[id].updatedAt < activeAfter
      ensures found.Some? ==>
        && found.value in rows && rows[found.value].key == key && Open(rows[found.value]) && rows[found.value].updatedAt >= activeAfter
        && forall id :: id in rows && rows[id].key == key && Open(rows[id]) ==> rows[id].updatedAt <= rows[found.value].updatedAt
    {
      if exists id :: id in rows && IsActive(rows[id], key, activeAfter) {
        SomeNewestActive(rows, key, activeAfter);
        var id :| id in rows && IsNewestActive(rows, id, key, activeAfter);
        return Some(id);
      }
      return None;
    }

    method ClaimNextAnalysisSessionForWorker(staleBefore: int, now: int, locked: set<SessionId>) returns (claimed: Option<SessionId>)
      modifies this
      ensures ClaimOutcome(old(rows), locked, staleBefore, now, claimed, rows)
      ensures ClaimsByAge(old(rows), locked, staleBefore, now, claimed, rows)
    {
      ghost var before := rows;
      forall claimed: Option<SessionId>, after: map<SessionId, Session> | ClaimOutcome(before, locked, staleBefore, now, claimed, after)
        ensures ClaimsByAge(before, locked, staleBefore, now, claimed, after)
      {
        OutcomeIsByAge(before, locked, staleBefore, now, claimed, after);
      }
      hide ClaimsByAge;
      var seen := rows - locked;
      if exists id :: id in seen && seen[id].status == Queued {
        SomeOldestQueued(seen);
        var id :| id in seen && IsOldestQueued(seen, id);
        rows := rows[id := Claim(rows[id], now)];
        return Some(id);
      }
      if exists id :: id in seen && IsStale(seen[id], staleBefore) {
        SomeOldestStale(seen, staleBefore);
        var id :| id in seen && IsOldestStale(seen, id, staleBefore);
        rows := rows[id := Claim(rows[id], now)];
        return Some(id);
      }
      return None;
    }

    /** A heartbeat reaches only a session that has not ended: check and write of the heartbeat
        loop, or its skip. */
    method TouchAnalysisSessionHeartbeat(id: SessionId, now: int)
      modifies this
      ensures if id in old(rows) && !Ended(old(rows)[id]) then
                forall clock, w ::
                  && IsStep(old(rows), clock, Runs(id, Timed(now)), BeatCheck(w), Runs(id, Checked(now)), old(rows))
                  && IsStep(old(rows), clock, Runs(id, Checked(now)), BeatWrite(w), Runs(id, Quiet), rows)
              else
                && rows == old(rows)
                && forall clock, w :: IsStep(rows, clock, Runs(id, Timed(now)), BeatSkip(w), Runs(id, Quiet), rows)
      ensures id in old(rows) && Open(old(rows)[id]) ==>
        && OnlyTimes(old(rows), id, rows) && rows[id].status == old(rows)[id].status
        && rows[id].heartbeatAt == Some(now) && rows[id].updatedAt == now
      ensures id !in old(rows) || !Open(old(rows)[id]) ==> rows == old(rows)
    {
      if id !in rows || (rows[id].status != Queued && rows[id].status != Running) {
        return;
      }
      rows := rows[id := Touch(rows[id], now)];
    }

    /** The first stage of a run, which also sets the status, is the machine's Begin; every later
        one is Progress. */
    method UpdateSessionProgress(id: SessionId, status: Option<Status>, now: int)
      requires id in rows
      modifies this
      ensures rows == old(rows)[id := Touch(old(rows)[id], now).(status := status.GetOr(old(rows)[id].status))]
      ensures status == Some(Running) ==>
                forall w :: IsStep(old(rows), now, Claimed(id), Begin(w), Runs(id, Quiet), rows)
      ensures status.None? ==>
                forall w, pulse :: IsStep(old(rows), now, Runs(id, pulse), Progress(w), Runs(id, pulse), rows)
      ensures OnlyTimes(old(rows), id, rows) && rows[id].heartbeatAt == Some(now) && rows[id].updatedAt == now
      ensures rows[id].status == if status.Some? then status.value else old(rows)[id].status
    {
      if status.Some? {
        rows := rows[id := rows[id].(status := status.value)];
      }
      rows := rows[id := rows[id].(heartbeatAt := Some(now), updatedAt := now)];
    }

    /** The machine's Complete: the report's own generation time becomes the last heartbeat. */
    method CompleteSession(id: SessionId, generatedAt: int, now: int)
      requires id in rows
      modifies this
      ensures forall w, pulse ::
                IsStep(old(rows), now, Runs(id, pulse), Complete(w, generatedAt), Finishing(id, pulse), rows)
      ensures OnlyTimes(old(rows), id, rows) && rows[id].status == Completed
      ensures rows[id].heartbeatAt == Some(generatedAt) && rows[id].updatedAt == now
    {
      rows := rows[id := rows[id].(status := Completed)];
      rows := rows[id := rows[id].(heartbeatAt := Some(generatedAt), updatedAt := now)];
    }

    /** The machine's PersistFailure for every worker that can fail; a missing session is left so. */
    method PersistAnalysisSessionFailure(id: SessionId, now: int)
      modifies this
      ensures id in old(rows) ==>
                forall w, worker :: CanFail(worker) && worker.session == id ==>
                  IsStep(old(rows), now, worker, PersistFailure(w), Winding(id, PulseOf(worker)), rows)
      ensures id !in old(rows) ==> rows == old(rows)
      ensures id in old(rows) ==>
        && OnlyTimes(old(rows), id, rows) && rows[id].status == Failed
        && rows[id].heartbeatAt == Some(now) && rows[id].updatedAt == now
    {
      if id !in rows {
        return;
      }
      rows := rows[id := rows[id].(status := Failed)];
      rows := rows[id := rows[id].(heartbeatAt := Some(now), updatedAt := now)];
    }

    /** The body of a start call, run while it holds the lock of the key: a fresh report, else an
        active session, else a new one. No session is ever added while one of the key is active. */
    method StartAnalysisSession(key: string, reportIsFresh: bool, at: int, activeTtl: nat, newId: SessionId, now: int)
        returns (outcome: Started)
      requires newId !in rows
      modifies this
      ensures reportIsFresh <==> outcome.ReportIsFresh?
      ensures outcome.Reused? ==> IsNewestActive(rows, outcome.id, key, at - activeTtl)
      ensures !outcome.Created? ==> rows == old(rows)
      ensures outcome.Created? ==>
        && outcome.id == newId && rows == old(rows)[newId := Session(key, Queued, now, now, None)]
        && forall id :: id in old(rows) ==> !IsActive(old(rows)[id], key, at - activeTtl)
      // the machine's look-up of the active session, and its commit
      ensures outcome.Reused? ==> FindsActive(rows, key, at, activeTtl, outcome.id)
      ensures outcome.Created? ==> FindsNone(old(rows), key, at, activeTtl) && IsCommit(old(rows), newId, key, now, rows)
      ensures outcome.Reused? ==>
        && outcome.id in rows && rows[outcome.id].key == key && Open(rows[outcome.id]) && rows[outcome.id].updatedAt >= at - activeTtl
        && forall id :: id in rows && rows[id].key == key && Open(rows[id]) ==> rows[id].updatedAt <= rows[outcome.id].updatedAt
      ensures !reportIsFresh ==> (outcome.Created? <==>
        forall id :: id in old(rows) && old(rows)[id].key == key && Open(old(rows)[id]) ==> old(rows)[id].updatedAt < at - activeTtl)
    {
      LookIsStep(rows, key, at, activeTtl);
      hide FindsActive, FindsNone, IsCommit;
      if reportIsFresh {
        return ReportIsFresh;
      }
      var active := LoadActiveSessionByKey(key, at - activeTtl);
      if active.Some? {
        return Reused(active.value);
      }
      CreateAnalysisSessionRecord(newId, key, now);
      return Created(newId);
    }
  }
}
