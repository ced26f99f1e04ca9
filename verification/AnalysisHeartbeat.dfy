/** What beating does: the heartbeat of a session is the time its last claim, begin, progress,
    heartbeat, completion or failure carried, so lease safety follows from what workers do. */
module AnalysisHeartbeat {
  import opened Wrappers
  import opened AnalysisQueue
  import opened AnalysisLease

  /** The session an action beats, and the time it writes. */
  function BeatOf(s: State, a: Action): Option<(SessionId, int)> {
    if WorkerOf(a).None? || WorkerOf(a).value !in s.workers then None
    else
      var was := s.workers[WorkerOf(a).value];
      match a
      case ClaimQueued(_, id, _) => if was.Polled? then Some((id, was.claimNow)) else None
      case ClaimStale(_, id, _) => if was.NoneQueued? then Some((id, was.claimNow)) else None
      case Begin(_) => if was.Claimed? then Some((was.session, s.now)) else None
      case BeatWrite(_) => if InRun(was) && was.pulse.Checked? then Some((was.session, was.pulse.at)) else None
      case Progress(_) => if was.Runs? then Some((was.session, s.now)) else None
      case Complete(_, generatedAt) => if was.Runs? then Some((was.session, generatedAt)) else None
      case PersistFailure(_) => if CanFail(was) then Some((was.session, s.now)) else None
      case _ => None
  }

  /** The time the last beat of the session before state i carried. */
  ghost function LastBeat(states: seq<State>, actions: seq<Action>, i: nat, id: SessionId): Option<int>
    requires i <= |actions| && i < |states|
  {
    if i == 0 then None
    else
      var beat := BeatOf(states[i - 1], actions[i - 1]);
      if beat.Some? && beat.value.0 == id then Some(beat.value.1) else LastBeat(states, actions, i - 1, id)
  }

  /** A worker's step changes the heartbeat of the session it beats, and no other. */
  lemma {:induction false} WorkerBeats(cfg: Settings, s: State, a: Action, s': State, id: SessionId)
    requires Next(cfg, s, a, s') && WorkerOf(a).Some?
    ensures BeatOf(s, a).Some? ==> BeatOf(s, a).value.0 in s.rows
    ensures id in s.rows ==> id in s'.rows
    ensures id in s'.rows ==> id in s.rows
    ensures id in s.rows && BeatOf(s, a).Some? && BeatOf(s, a).value.0 == id ==> s'.rows[id].heartbeatAt == Some(BeatOf(s, a).value.1)
    ensures id in s.rows && !(BeatOf(s, a).Some? && BeatOf(s, a).value.0 == id) ==> s'.rows[id].heartbeatAt == s.rows[id].heartbeatAt
  {
    hide NoLater, IsStale;
  }

  lemma {:induction false} OthersDoNotBeat(cfg: Settings, s: State, a: Action, s': State, id: SessionId)
    requires Next(cfg, s, a, s') && WorkerOf(a).None? && CommitsAreFresh(s)
    ensures BeatOf(s, a).None?
    ensures id in s.rows ==> id in s'.rows && s'.rows[id] == s.rows[id]
    ensures id in s'.rows && id !in s.rows ==> s'.rows[id].heartbeatAt == None
  {
    hide WorkerStep, IsActive, EndedIds;
  }

  lemma {:induction false} BeatStep(cfg: Settings, s: State, a: Action, s': State, id: SessionId, last: Option<int>)
    requires Next(cfg, s, a, s') && CommitsAreFresh(s)
    requires if id in s.rows then s.rows[id].heartbeatAt == last else last == None
    ensures var beat := BeatOf(s, a);
            var last' := if beat.Some? && beat.value.0 == id then Some(beat.value.1) else last;
            if id in s'.rows then s'.rows[id].heartbeatAt == last' else last' == None
  {
    hide Next, BeatOf, CommitsAreFresh;
    if WorkerOf(a).Some? {
      WorkerBeats(cfg, s, a, s', id);
    } else {
      OthersDoNotBeat(cfg, s, a, s', id);
    }
  }

  lemma {:induction false} LastBeatUnfolds(states: seq<State>, actions: seq<Action>, i: nat, id: SessionId)
    requires 0 < i <= |actions| && i < |states|
    ensures var beat := BeatOf(states[i - 1], actions[i - 1]);
            LastBeat(states, actions, i, id)
            == if beat.Some? && beat.value.0 == id then Some(beat.value.1) else LastBeat(states, actions, i - 1, id)
  {
    hide BeatOf;
  }

  /** In every run a session's heartbeat is the time its last beat carried. */
  lemma {:induction false} HeartbeatIsLastBeat(cfg: Settings, states: seq<State>, actions: seq<Action>, i: nat, id: SessionId)
    requires Run(cfg, states, actions) && i < |states|
    ensures if id in states[i].rows then states[i].rows[id].heartbeatAt == LastBeat(states, actions, i, id)
            else LastBeat(states, actions, i, id) == None
    decreases i
  {
    hide *;
    if i == 0 {
      NothingAtStart(cfg, states, actions, id);
    } else {
      RunStep(cfg, states, actions, i - 1);
      HeartbeatIsLastBeat(cfg, states, actions, i - 1, id);
      AlwaysFresh(cfg, states, actions, i - 1);
      BeatStep(cfg, states[i - 1], actions[i - 1], states[i], id, LastBeat(states, actions, i - 1, id));
      LastBeatUnfolds(states, actions, i, id);
    }
  }

  lemma {:induction false} NothingAtStart(cfg: Settings, states: seq<State>, actions: seq<Action>, id: SessionId)
    requires Run(cfg, states, actions)
    ensures id !in states[0].rows && LastBeat(states, actions, 0, id) == None
  {
    hide Next;
  }

  lemma {:induction false} RunStep(cfg: Settings, states: seq<State>, actions: seq<Action>, i: nat)
    requires Run(cfg, states, actions) && i + 1 < |states|
    ensures i < |actions| && |states| == |actions| + 1 && Next(cfg, states[i], actions[i], states[i + 1])
  {
    hide Next, Init;
  }

  /** Every session somebody holds was last beaten with a time at most the stale interval ago. */
  ghost predicate BeatenInTime(cfg: Settings, states: seq<State>, actions: seq<Action>, i: nat)
    requires i <= |actions| && i < |states|
  {
    forall w :: w in states[i].workers && Held(states[i].workers[w]).Some? && Held(states[i].workers[w]).value in states[i].rows ==>
      var beat := LastBeat(states, actions, i, Held(states[i].workers[w]).value);
      beat.Some? && states[i].now - beat.value <= cfg.stale
  }

  /** Heartbeats are timely exactly when the holders' sessions are beaten in time. */
  lemma {:induction false} TimelyIffBeaten(cfg: Settings, states: seq<State>, actions: seq<Action>, i: nat)
    requires Run(cfg, states, actions) && i < |states|
    ensures Timely(cfg, states[i]) <==> BeatenInTime(cfg, states, actions, i)
  {
    hide Next, LastBeat;
    forall id | id in states[i].rows
      ensures states[i].rows[id].heartbeatAt == LastBeat(states, actions, i, id)
    {
      HeartbeatIsLastBeat(cfg, states, actions, i, id);
    }
  }

  /** Beating keeps the lease: as long as held sessions are beaten in time, a session has at most
      one live runner. */
  lemma {:induction false} BeatingKeepsLease(cfg: Settings, states: seq<State>, actions: seq<Action>, i: nat, w: nat, v: nat)
    requires Run(cfg, states, actions) && i < |states|
    requires forall k :: 0 <= k < i ==> BeatenInTime(cfg, states, actions, k)
    requires w in states[i].workers && v in states[i].workers && w != v
    ensures Held(states[i].workers[w]).Some? ==> Held(states[i].workers[w]) != Held(states[i].workers[v])
  {
    hide Next, BeatenInTime, Timely;
    forall k | 0 <= k < i
      ensures Timely(cfg, states[k])
    {
      TimelyIffBeaten(cfg, states, actions, k);
    }
    OneLiveRunner(cfg, states, actions, i, w, v);
  }
}
