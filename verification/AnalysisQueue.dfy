/** The session table, the workers that claim and run sessions, and the calls that create them
    (analysis_repository.py, analysis_service.py, run_analysis_worker.py), as one state
    machine. Every statement that reads or writes a row is one step; any number of workers
    and callers interleave. */
module AnalysisQueue {
  import opened Wrappers

  type SessionId = nat

  datatype Status = Queued | Running | Completed | Failed

  datatype Session = Session(key: string, status: Status, createdAt: int, updatedAt: int, heartbeatAt: Option<int>)

  /** Where the heartbeat task of a run is: sleeping, with a timestamp read, or past the check
      that the session has not ended. */
  datatype Pulse = Quiet | Timed(at: int) | Checked(at: int)

  /** A worker that polls reads the clock for the stale limit first, and again for the claim. One
      that holds a session is Claimed or Runs; Finishing has committed the report and
      can still fail; Winding has nothing left to write but a heartbeat in flight. */
  datatype Worker =
    | Idle
    | Limited(staleBefore: int)
    | Polled(staleBefore: int, claimNow: int)
    | NoneQueued(staleBefore: int, claimNow: int)
    | Claimed(session: SessionId)
    | Runs(session: SessionId, pulse: Pulse)
    | Finishing(session: SessionId, pulse: Pulse)
    | Winding(session: SessionId, pulse: Pulse)

  /** The phases of `start_analysis_session`; all but Waiting hold the lock of the key. */
  datatype Caller =
    | Waiting(key: string)
    | Locked(key: string)
    | Looking(key: string, at: int)
    | FreeToInsert(key: string, at: int, closed: set<SessionId>)
    | Inserted(key: string, at: int, closed: set<SessionId>, id: SessionId, createdAt: int)
    | Leaving(key: string)

  /** `closed[b]` records which sessions of b's key had ended when b's caller looked for an
      active one; `used` are all ids ever drawn. */
  datatype State = State(now: int, rows: map<SessionId, Session>, workers: map<nat, Worker>,
                         callers: map<nat, Caller>, owner: map<string, nat>,
                         closed: map<SessionId, set<SessionId>>, used: set<SessionId>)

  /** Seconds until a running session is stale, seconds an active session is reused, and the
      longest time between a claim reading the clock and its statement taking effect. */
  datatype Settings = Settings(stale: nat, activeTtl: nat, claimDelay: nat)

  // ---- queries ---------------------------------------------------------------------------

  predicate Ended(row: Session) {
    row.status == Completed || row.status == Failed
  }

  predicate IsStale(row: Session, before: int) {
    row.status == Running
    && (match row.heartbeatAt case Some(beat) => beat < before case None => row.updatedAt < before)
  }

  predicate IsActive(row: Session, key: string, after: int) {
    row.key == key && !Ended(row) && row.updatedAt >= after
  }

  predicate NoLater(time: int, id: SessionId, time': int, id': SessionId) {
    time < time' || (time == time' && id <= id')
  }

  predicate IsOldestQueued(rows: map<SessionId, Session>, id: SessionId) {
    && id in rows && rows[id].status == Queued
    && forall j :: j in rows && rows[j].status == Queued ==> NoLater(rows[id].createdAt, id, rows[j].createdAt, j)
  }

  predicate IsOldestStale(rows: map<SessionId, Session>, id: SessionId, before: int) {
    && id in rows && IsStale(rows[id], before)
    && forall j :: j in rows && IsStale(rows[j], before) ==> NoLater(rows[id].updatedAt, id, rows[j].updatedAt, j)
  }

  function Claim(row: Session, now: int): Session {
    row.(status := Running, heartbeatAt := Some(now), updatedAt := now)
  }

  function Touch(row: Session, now: int): Session {
    row.(heartbeatAt := Some(now), updatedAt := now)
  }

  function EndedIds(rows: map<SessionId, Session>, key: string): set<SessionId> {
    set id | id in rows && rows[id].key == key && Ended(rows[id])
  }

  // ---- steps ---------------------------------------------------------------------------------

  /** A claim statement skips the rows that other transactions have locked at its moment. */
  datatype Action =
    | Tick(to: int)
    | Spawn(w: nat)
    | SetLimit(w: nat)
    | Poll(w: nat)
    | ClaimQueued(w: nat, id: SessionId, locked: set<SessionId>)
    | FindNoQueued(w: nat, locked: set<SessionId>)
    | ClaimStale(w: nat, id: SessionId, locked: set<SessionId>)
    | FindNoStale(w: nat, locked: set<SessionId>)
    | Begin(w: nat)
    | BeatTime(w: nat)
    | BeatCheck(w: nat)
    | BeatWrite(w: nat)
    | BeatSkip(w: nat)
    | Progress(w: nat)
    | Complete(w: nat, generatedAt: int)
    | PersistFailure(w: nat)
    | LoseFailure(w: nat)
    | WindUp(w: nat)
    | Crash(w: nat)
    | Call(c: nat, key: string)
    | Acquire(c: nat)
    | FindFreshReport(c: nat)
    | ReadClock(c: nat)
    | FindActive(c: nat, id: SessionId)
    | FindNoActive(c: nat)
    | Insert(c: nat, id: SessionId)
    | Commit(c: nat)
    | Abort(c: nat)
    | Leave(c: nat)

  function Held(worker: Worker): Option<SessionId> {
    match worker
    case Claimed(id) => Some(id)
    case Runs(id, _) => Some(id)
    case _ => None
  }

  predicate InRun(worker: Worker) {
    worker.Runs? || worker.Finishing? || worker.Winding?
  }

  function WithPulse(worker: Worker, pulse: Pulse): Worker
    requires InRun(worker)
  {
    match worker
    case Runs(id, _) => Runs(id, pulse)
    case Finishing(id, _) => Finishing(id, pulse)
    case Winding(id, _) => Winding(id, pulse)
  }

  predicate CanFail(worker: Worker) {
    worker.Claimed? || worker.Runs? || worker.Finishing?
  }

  function PulseOf(worker: Worker): Pulse {
    if InRun(worker) then worker.pulse else Quiet
  }

  /** One step of a worker: its own state and at most one row change. */
  ghost predicate WorkerStep(cfg: Settings, s: State, a: Action, worker: Worker, rows: map<SessionId, Session>)
    requires WorkerOf(a).Some? && WorkerOf(a).value in s.workers
  {
    var was := s.workers[WorkerOf(a).value];
    match a
    case SetLimit(_) =>
      was.Idle? && rows == s.rows && worker == Limited(s.now - cfg.stale)
    case Poll(_) =>
      was.Limited? && rows == s.rows && worker == Polled(was.staleBefore, s.now)
    case ClaimQueued(_, id, locked) =>
      && was.Polled? && s.now - was.claimNow <= cfg.claimDelay
      && IsOldestQueued(s.rows - locked, id)
      && rows == s.rows[id := Claim(s.rows[id], was.claimNow)] && worker == Claimed(id)
    case FindNoQueued(_, locked) =>
      && was.Polled? && (forall j :: j in s.rows - locked ==> s.rows[j].status != Queued)
      && rows == s.rows && worker == NoneQueued(was.staleBefore, was.claimNow)
    case ClaimStale(_, id, locked) =>
      && was.NoneQueued? && s.now - was.claimNow <= cfg.claimDelay
      && IsOldestStale(s.rows - locked, id, was.staleBefore)
      && rows == s.rows[id := Claim(s.rows[id], was.claimNow)] && worker == Claimed(id)
    case FindNoStale(_, locked) =>
      && was.NoneQueued? && (forall j :: j in s.rows - locked ==> !IsStale(s.rows[j], was.staleBefore))
      && rows == s.rows && worker == Idle
    case Begin(_) =>
      && was.Claimed? && was.session in s.rows
      && rows == s.rows[was.session := Touch(s.rows[was.session], s.now).(status := Running)]
      && worker == Runs(was.session, Quiet)
    case BeatTime(_) =>
      && InRun(was) && was.pulse.Quiet?
      && rows == s.rows && worker == WithPulse(was, Timed(s.now))
    case BeatCheck(_) =>
      && InRun(was) && was.pulse.Timed? && was.session in s.rows && !Ended(s.rows[was.session])
      && rows == s.rows && worker == WithPulse(was, Checked(was.pulse.at))
    case BeatWrite(_) =>
      && InRun(was) && was.pulse.Checked? && was.session in s.rows
      && rows == s.rows[was.session := Touch(s.rows[was.session], was.pulse.at)]
      && worker == WithPulse(was, Quiet)
    case BeatSkip(_) =>
      InRun(was) && rows == s.rows && worker == WithPulse(was, Quiet)
    case Progress(_) =>
      && was.Runs? && was.session in s.rows
      && rows == s.rows[was.session := Touch(s.rows[was.session], s.now)] && worker == was
    case Complete(_, generatedAt) =>
      && was.Runs? && was.session in s.rows
      && rows == s.rows[was.session := s.rows[was.session].(status := Completed, updatedAt := s.now,
                                                            heartbeatAt := Some(generatedAt))]
      && worker == Finishing(was.session, was.pulse)
    case PersistFailure(_) =>
      && CanFail(was) && was.session in s.rows
      && rows == s.rows[was.session := Touch(s.rows[was.session], s.now).(status := Failed)]
      && worker == Winding(was.session, PulseOf(was))
    case LoseFailure(_) =>
      CanFail(was) && rows == s.rows && worker == Winding(was.session, PulseOf(was))
    case WindUp(_) =>
      (was.Winding? || was.Finishing?) && rows == s.rows && worker == Idle
    case _ => false
  }

  function WorkerOf(a: Action): Option<nat> {
    match a
    case SetLimit(w) => Some(w)
    case Poll(w) => Some(w)
    case ClaimQueued(w, _, _) => Some(w)
    case FindNoQueued(w, _) => Some(w)
    case ClaimStale(w, _, _) => Some(w)
    case FindNoStale(w, _) => Some(w)
    case Begin(w) => Some(w)
    case BeatTime(w) => Some(w)
    case BeatCheck(w) => Some(w)
    case BeatWrite(w) => Some(w)
    case BeatSkip(w) => Some(w)
    case Progress(w) => Some(w)
    case Complete(w, _) => Some(w)
    case PersistFailure(w) => Some(w)
    case LoseFailure(w) => Some(w)
    case WindUp(w) => Some(w)
    case _ => None
  }

  function CallerOf(a: Action): Option<nat> {
    match a
    case Call(c, _) => Some(c)
    case Acquire(c) => Some(c)
    case FindFreshReport(c) => Some(c)
    case ReadClock(c) => Some(c)
    case FindActive(c, _) => Some(c)
    case FindNoActive(c) => Some(c)
    case Insert(c, _) => Some(c)
    case Commit(c) => Some(c)
    case Abort(c) => Some(c)
    case Leave(c) => Some(c)
    case _ => None
  }

  /** One step of a start call. The lock is the mutex that the lock registry refines. */
  ghost predicate CallerStep(cfg: Settings, s: State, a: Action, s': State) {
    match a
    case Call(c, key) =>
      c !in s.callers && s' == s.(callers := s.callers[c := Waiting(key)])
    case Acquire(c) =>
      && c in s.callers && s.callers[c].Waiting? && s.callers[c].key !in s.owner
      && s' == s.(callers := s.callers[c := Locked(s.callers[c].key)], owner := s.owner[s.callers[c].key := c])
    case FindFreshReport(c) =>
      && c in s.callers && s.callers[c].Locked?
      && s' == s.(callers := s.callers[c := Leaving(s.callers[c].key)])
    case ReadClock(c) =>
      && c in s.callers && s.callers[c].Locked?
      && s' == s.(callers := s.callers[c := Looking(s.callers[c].key, s.now)])
    case FindActive(c, id) =>
      && c in s.callers && s.callers[c].Looking?
      && id in s.rows && IsActive(s.rows[id], s.callers[c].key, s.callers[c].at - cfg.activeTtl)
      && s' == s.(callers := s.callers[c := Leaving(s.callers[c].key)])
    case FindNoActive(c) =>
      && c in s.callers && s.callers[c].Looking?
      && (forall id :: id in s.rows ==> !IsActive(s.rows[id], s.callers[c].key, s.callers[c].at - cfg.activeTtl))
      && s' == s.(callers := s.callers[c := FreeToInsert(s.callers[c].key, s.callers[c].at,
                                                         EndedIds(s.rows, s.callers[c].key))])
    case Insert(c, id) =>
      && c in s.callers && s.callers[c].FreeToInsert? && id !in s.used
      && s' == s.(callers := s.callers[c := Inserted(s.callers[c].key, s.callers[c].at, s.callers[c].closed, id, s.now)],
                  used := s.used + {id})
    case Commit(c) =>
      && c in s.callers && s.callers[c].Inserted?
      && var caller := s.callers[c];
         s' == s.(rows := s.rows[caller.id := Session(caller.key, Queued, caller.createdAt, caller.createdAt, None)],
                  closed := s.closed[caller.id := caller.closed],
                  callers := s.callers[c := Leaving(caller.key)])
    case Abort(c) =>
      && c in s.callers && !s.callers[c].Waiting?
      && s' == s.(callers := s.callers[c := Leaving(s.callers[c].key)])
    case Leave(c) =>
      && c in s.callers && s.callers[c].Leaving?
      && s' == s.(callers := s.callers - {c}, owner := s.owner - {s.callers[c].key})
    case _ => false
  }

  ghost predicate Next(cfg: Settings, s: State, a: Action, s': State) {
    if WorkerOf(a).Some? then
      var w := WorkerOf(a).value;
      && w in s.workers && w in s'.workers
      && WorkerStep(cfg, s, a, s'.workers[w], s'.rows)
      && s' == s.(workers := s.workers[w := s'.workers[w]], rows := s'.rows)
    else if CallerOf(a).Some? then CallerStep(cfg, s, a, s')
    else if a.Tick? then a.to >= s.now && s' == s.(now := a.to)
    else if a.Spawn? then a.w !in s.workers && s' == s.(workers := s.workers[a.w := Idle])
    else a.Crash? && a.w in s.workers && s' == s.(workers := s.workers - {a.w})
  }

  predicate Init(s: State) {
    s.rows == map[] && s.workers == map[] && s.callers == map[] && s.owner == map[] && s.closed == map[] && s.used == {}
  }

  /** Each live runner's heartbeat is recent enough: what the heartbeat loop is for. */
  ghost predicate Timely(cfg: Settings, s: State) {
    forall w :: w in s.workers && Held(s.workers[w]).Some? && Held(s.workers[w]).value in s.rows ==>
      var beat := s.rows[Held(s.workers[w]).value].heartbeatAt;
      beat.Some? && s.now - beat.value <= cfg.stale
  }

  ghost predicate Steps(cfg: Settings, states: seq<State>, actions: seq<Action>) {
    && |states| == |actions| + 1
    && forall i :: 0 <= i < |actions| ==> Next(cfg, states[i], actions[i], states[i + 1])
  }

  ghost predicate Run(cfg: Settings, states: seq<State>, actions: seq<Action>) {
    Steps(cfg, states, actions) && Init(states[0])
  }

  ghost predicate TimelyRun(cfg: Settings, states: seq<State>, actions: seq<Action>) {
    Run(cfg, states, actions) && forall i :: 0 <= i < |states| ==> Timely(cfg, states[i])
  }
}
