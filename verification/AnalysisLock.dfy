/** The start calls of analysis_service.py together with the lock registry they run under. The
    session machine keeps one owner per key and lets a call acquire a free key; here no such
    guard is assumed: who goes on is decided by the registry's locks alone. Every joint run is,
    seen from the sessions, a run of the session machine. */
module AnalysisLock {
  import opened Wrappers
  import L = LockRegistry
  import Q = AnalysisQueue

  /** The registry and the sessions. A call is known to the registry by its own number. */
  datatype System = System(locks: L.Registry, queue: Q.State)

  datatype Step = OnLock(lock: L.Action) | InQueue(action: Q.Action)

  function Acquired(s: Q.State, c: nat): Q.State
    requires c in s.callers
  {
    s.(callers := s.callers[c := Q.Locked(s.callers[c].key)], owner := s.owner[s.callers[c].key := c])
  }

  function Left(s: Q.State, c: nat): Q.State
    requires c in s.callers
  {
    s.(callers := s.callers - {c}, owner := s.owner - {s.callers[c].key})
  }

  predicate Asks(s: Q.State, c: nat, key: string) {
    c in s.callers && s.callers[c] == Q.Waiting(key)
  }

  /** What the sessions see of a step of the registry: a call that gets the lock goes on, and a
      call leaves the guarded body before it releases. */
  ghost predicate LockStep(t: System, a: L.Action, t': System) {
    && L.LocksExist(t.locks) && L.Enabled(t.locks, a) && t'.locks == L.Apply(t.locks, a)
    && match a
       case Enter(c, key) =>
         && Asks(t.queue, c, key)
         && t'.queue == if L.Owner(t'.locks, key) == Some(c) then Acquired(t.queue, c) else t.queue
       case Wake(id) =>
         && t.locks.objects[id].waiters[0] in t.queue.callers
         && t'.queue == Acquired(t.queue, t.locks.objects[id].waiters[0])
       case Exit(c, _) =>
         && c in t.queue.callers && t.queue.callers[c].Leaving?
         && t'.queue == Left(t.queue, c)
       case CancelWait(_, _) =>
         t'.queue == t.queue
  }

  /** All other steps of the sessions leave the registry alone. */
  ghost predicate Next(cfg: Q.Settings, t: System, step: Step, t': System) {
    match step
    case OnLock(a) => LockStep(t, a, t')
    case InQueue(a) => !a.Acquire? && !a.Leave? && t'.locks == t.locks && Q.Next(cfg, t.queue, a, t'.queue)
  }

  ghost predicate Run(cfg: Q.Settings, systems: seq<System>, steps: seq<Step>) {
    && |systems| == |steps| + 1 && systems[0].locks == L.EMPTY && Q.Init(systems[0].queue)
    && forall i :: 0 <= i < |steps| ==> Next(cfg, systems[i], steps[i], systems[i + 1])
  }

  // ---- the coupling ------------------------------------------------------------------------

  function OwnerOf(s: Q.State, key: string): Option<nat> {
    if key in s.owner then Some(s.owner[key]) else None
  }

  ghost predicate SameOwners(t: System) {
    forall key :: OwnerOf(t.queue, key) == L.Owner(t.locks, key)
  }

  predicate Served(s: Q.State, l: L.ManagedLock) {
    && (l.holder.Some? ==> l.holder.value in s.callers && s.callers[l.holder.value].key == l.key)
    && (forall c :: c in l.waiters ==> Asks(s, c, l.key))
  }

  ghost predicate Coupled(t: System) {
    && L.Valid(t.locks)
    && SameOwners(t)
    && forall id :: id in t.locks.objects ==> Served(t.queue, t.locks.objects[id])
  }

  /** The step of the session machine that a joint step is; a wait that begins or is given up
      takes no time there. */
  ghost function Seen(t: System, step: Step, t': System): Q.Action {
    match step
    case InQueue(a) => a
    case OnLock(Wake(id)) =>
      if id in t.locks.objects && t.locks.objects[id].waiters != [] then Q.Acquire(t.locks.objects[id].waiters[0])
      else Q.Tick(t.queue.now)
    case OnLock(Exit(c, _)) => Q.Leave(c)
    case OnLock(Enter(c, key)) => if L.Owner(t'.locks, key) == Some(c) then Q.Acquire(c) else Q.Tick(t.queue.now)
    case OnLock(CancelWait(_, _)) => Q.Tick(t.queue.now)
  }

  // ---- one step ------------------------------------------------------------------------------

  lemma {:induction false} AcquiringIsNext(cfg: Q.Settings, s: Q.State, c: nat, key: string)
    requires Asks(s, c, key) && OwnerOf(s, key) == None
    ensures Q.Next(cfg, s, Q.Acquire(c), Acquired(s, c))
    ensures OwnerOf(Acquired(s, c), key) == Some(c)
    ensures forall k :: k != key ==> OwnerOf(Acquired(s, c), k) == OwnerOf(s, k)
  {
  }

  lemma {:induction false} LeavingIsNext(cfg: Q.Settings, s: Q.State, c: nat)
    requires c in s.callers && s.callers[c].Leaving?
    ensures Q.Next(cfg, s, Q.Leave(c), Left(s, c))
    ensures OwnerOf(Left(s, c), s.callers[c].key) == None
    ensures forall k :: k != s.callers[c].key ==> OwnerOf(Left(s, c), k) == OwnerOf(s, k)
  {
  }

  lemma {:induction false} PausingIsNext(cfg: Q.Settings, s: Q.State)
    ensures Q.Next(cfg, s, Q.Tick(s.now), s)
  {
  }

  /** The lock's own step decides the owner of its key and of no other. */
  lemma {:induction false} EnterOwner(r: L.Registry, c: nat, key: string)
    requires L.Valid(r) && !L.InUse(r, c)
    ensures var r' := L.Apply(r, L.Enter(c, key));
      && (forall k :: k != key ==> L.Owner(r', k) == L.Owner(r, k))
      && (L.Owner(r', key) == L.Owner(r, key) || (L.Owner(r, key) == None && L.Owner(r', key) == Some(c)))
      && L.Owner(r, key) != Some(c)
  {
    L.EnterIsJoin(r, c, key);
    L.LookupKeepsIndex(r, key);
  }

  lemma {:induction false} EnterIsServed(t: System, c: nat, key: string, t': System)
    requires Coupled(t) && LockStep(t, L.Enter(c, key), t')
    ensures forall id :: id in t'.locks.objects ==> Served(t'.queue, t'.locks.objects[id])
  {
    L.EnterIsJoin(t.locks, c, key);
    L.LookupKeepsIndex(t.locks, key);
    var (looked, at) := L.Lookup(t.locks, key);
    hide L.Valid;
    forall id | id in t'.locks.objects
      ensures Served(t'.queue, t'.locks.objects[id])
    {
      if id in t.locks.objects {
        assert !L.Uses(t.locks.objects[id], c);
      }
    }
  }

  /** Only the owner of one key changes, and as the registry says. */
  lemma {:induction false} OwnersStaySame(t: System, t': System, key: string)
    requires SameOwners(t)
    requires forall k :: k != key ==> L.Owner(t'.locks, k) == L.Owner(t.locks, k) && OwnerOf(t'.queue, k) == OwnerOf(t.queue, k)
    requires OwnerOf(t'.queue, key) == L.Owner(t'.locks, key)
    ensures SameOwners(t')
  {
    hide L.Owner, OwnerOf;
    forall k
      ensures OwnerOf(t'.queue, k) == L.Owner(t'.locks, k)
    {
      assert OwnerOf(t.queue, k) == L.Owner(t.locks, k);
    }
  }

  lemma {:induction false} EnterKeepsCoupled(cfg: Q.Settings, t: System, c: nat, key: string, t': System)
    requires Coupled(t) && LockStep(t, L.Enter(c, key), t')
    ensures Coupled(t') && Q.Next(cfg, t.queue, Seen(t, OnLock(L.Enter(c, key)), t'), t'.queue)
  {
    EnterIsServed(t, c, key, t');
    hide L.Valid, L.Apply, L.Owner, L.LocksExist, L.InUse, Served, Q.Next, Acquired, OwnerOf;
    EnterOwner(t.locks, c, key);
    L.EnterKeepsValid(t.locks, c, key);
    assert OwnerOf(t.queue, key) == L.Owner(t.locks, key);
    PausingIsNext(cfg, t.queue);
    if L.Owner(t'.locks, key) == Some(c) {
      AcquiringIsNext(cfg, t.queue, c, key);
    }
    OwnersStaySame(t, t', key);
  }

  /** A waiter that is woken finds its key free: nobody else can have taken it. */
  lemma {:induction false} WakeOwner(r: L.Registry, id: L.LockId)
    requires L.Valid(r) && L.Enabled(r, L.Wake(id))
    ensures var r' := L.Apply(r, L.Wake(id));
      && (forall k :: k != r.objects[id].key ==> L.Owner(r', k) == L.Owner(r, k))
      && L.Owner(r, r.objects[id].key) == None && L.Owner(r', r.objects[id].key) == Some(r.objects[id].waiters[0])
  {
    L.UsedIsRegistered(r, id);
  }

  /** The lock that `c` got serves its other users as before, and any lock `c` does not use does. */
  lemma {:induction false} OthersAreServed(s: Q.State, s': Q.State, c: nat, l: L.ManagedLock)
    requires c in s.callers && (s' == Acquired(s, c) || s' == Left(s, c))
    requires Served(s, l) && !L.Uses(l, c)
    ensures Served(s', l)
  {
  }

  lemma {:induction false} WokenIsServed(s: Q.State, l: L.ManagedLock)
    requires Served(s, l) && L.Distinct(l.waiters) && l.waiters != []
    ensures Asks(s, l.waiters[0], l.key)
    ensures Served(Acquired(s, l.waiters[0]), l.(holder := Some(l.waiters[0]), waiters := l.waiters[1..]))
  {
    forall c | c in l.waiters[1..]
      ensures c in l.waiters && c != l.waiters[0]
    {
    }
  }

  lemma {:induction false} WakeKeepsCoupled(cfg: Q.Settings, t: System, id: L.LockId, t': System)
    requires Coupled(t) && LockStep(t, L.Wake(id), t')
    ensures Coupled(t') && Q.Next(cfg, t.queue, Seen(t, OnLock(L.Wake(id)), t'), t'.queue)
  {
    var l, c := t.locks.objects[id], t.locks.objects[id].waiters[0];
    WakeOwner(t.locks, id);
    L.WakeKeepsValid(t.locks, id);
    WokenIsServed(t.queue, l);
    assert OwnerOf(t.queue, l.key) == None;
    assert L.Uses(l, c);
    forall i | i in t'.locks.objects
      ensures Served(t'.queue, t'.locks.objects[i])
    {
      if i != id {
        OthersAreServed(t.queue, t'.queue, c, t.locks.objects[i]);
      }
    }
    hide L.Valid, Served, L.Owner, Q.Next, Acquired, OwnerOf;
    AcquiringIsNext(cfg, t.queue, c, l.key);
    OwnersStaySame(t, t', l.key);
  }

  lemma {:induction false} ExitOwner(r: L.Registry, c: nat, id: L.LockId)
    requires L.Valid(r) && L.Enabled(r, L.Exit(c, id))
    ensures var r' := L.Apply(r, L.Exit(c, id));
      && (forall k :: k != r.objects[id].key ==> L.Owner(r', k) == L.Owner(r, k))
      && L.Owner(r', r.objects[id].key) == None
  {
    L.UsedIsRegistered(r, id);
  }

  lemma {:induction false} ExitKeepsCoupled(cfg: Q.Settings, t: System, c: nat, id: L.LockId, t': System)
    requires Coupled(t) && LockStep(t, L.Exit(c, id), t')
    ensures Coupled(t') && Q.Next(cfg, t.queue, Seen(t, OnLock(L.Exit(c, id)), t'), t'.queue)
  {
    var l := t.locks.objects[id];
    ExitOwner(t.locks, c, id);
    L.LeaveKeepsValid(t.locks, id);
    assert Served(t.queue, l) && L.ValidLock(l) && L.Uses(l, c);
    forall i | i in t'.locks.objects
      ensures Served(t'.queue, t'.locks.objects[i])
    {
      if i != id {
        OthersAreServed(t.queue, t'.queue, c, t.locks.objects[i]);
      }
    }
    hide L.Valid, Served, L.Owner, Q.Next, Left, OwnerOf;
    LeavingIsNext(cfg, t.queue, c);
    OwnersStaySame(t, t', l.key);
  }

  lemma {:induction false} CancelKeepsCoupled(cfg: Q.Settings, t: System, c: nat, id: L.LockId, t': System)
    requires Coupled(t) && LockStep(t, L.CancelWait(c, id), t')
    ensures Coupled(t') && Q.Next(cfg, t.queue, Seen(t, OnLock(L.CancelWait(c, id)), t'), t'.queue)
  {
    L.CancelKeepsValid(t.locks, c, id);
    L.WithoutFacts(t.locks.objects[id].waiters, c);
    forall k
      ensures OwnerOf(t'.queue, k) == L.Owner(t'.locks, k)
    {
      assert OwnerOf(t.queue, k) == L.Owner(t.locks, k);
    }
    forall i | i in t'.locks.objects
      ensures Served(t'.queue, t'.locks.objects[i])
    {
      assert Served(t.queue, t.locks.objects[i]);
    }
  }

  /** Between two lock steps no call changes its key, and a waiting one stays waiting. */
  lemma {:induction false} QueueKeepsCoupled(cfg: Q.Settings, t: System, a: Q.Action, t': System)
    requires Coupled(t) && Next(cfg, t, InQueue(a), t')
    ensures Coupled(t')
  {
    hide L.Valid, L.Owner;
    assert t'.queue.owner == t.queue.owner;
    forall k
      ensures OwnerOf(t'.queue, k) == L.Owner(t'.locks, k)
    {
      assert OwnerOf(t.queue, k) == L.Owner(t.locks, k);
    }
    forall c | c in t.queue.callers
      ensures c in t'.queue.callers && t'.queue.callers[c].key == t.queue.callers[c].key
      ensures t.queue.callers[c].Waiting? ==> t'.queue.callers[c] == t.queue.callers[c]
    {
    }
    forall i | i in t'.locks.objects
      ensures Served(t'.queue, t'.locks.objects[i])
    {
      assert Served(t.queue, t.locks.objects[i]);
    }
  }

  /** A joint step keeps the coupling and is a step of the session machine: in particular a call
      that the registry lets go on finds its key without an owner. */
  lemma {:induction false} StepIsQueueStep(cfg: Q.Settings, t: System, step: Step, t': System)
    requires Coupled(t) && Next(cfg, t, step, t')
    ensures Coupled(t') && Q.Next(cfg, t.queue, Seen(t, step, t'), t'.queue)
  {
    hide Coupled, LockStep, Q.Next, L.Apply, L.LocksExist, L.Enabled;
    match step
    case InQueue(a) => QueueKeepsCoupled(cfg, t, a, t');
    case OnLock(Enter(c, key)) => EnterKeepsCoupled(cfg, t, c, key, t');
    case OnLock(Wake(id)) => WakeKeepsCoupled(cfg, t, id, t');
    case OnLock(Exit(c, id)) => ExitKeepsCoupled(cfg, t, c, id, t');
    case OnLock(CancelWait(c, id)) => CancelKeepsCoupled(cfg, t, c, id, t');
  }

  // ---- whole runs ------------------------------------------------------------------------------

  ghost function Queues(systems: seq<System>): seq<Q.State> {
    seq(|systems|, i requires 0 <= i < |systems| => systems[i].queue)
  }

  ghost function Actions(systems: seq<System>, steps: seq<Step>): seq<Q.Action>
    requires |systems| == |steps| + 1
  {
    seq(|steps|, i requires 0 <= i < |steps| => Seen(systems[i], steps[i], systems[i + 1]))
  }

  /** In every joint run the owner of a key is whoever holds its registered lock. */
  lemma {:induction false} AlwaysCoupled(cfg: Q.Settings, systems: seq<System>, steps: seq<Step>, n: nat)
    requires Run(cfg, systems, steps) && n < |systems|
    ensures Coupled(systems[n])
  {
    if n > 0 {
      AlwaysCoupled(cfg, systems, steps, n - 1);
      assert Next(cfg, systems[n - 1], steps[n - 1], systems[n - 1 + 1]);
      StepIsQueueStep(cfg, systems[n - 1], steps[n - 1], systems[n]);
    }
  }

  /** Every run of start calls under the registry's locks is a run of the session machine, so
      what holds of all its runs holds of the code's locks. */
  lemma {:induction false} RunIsQueueRun(cfg: Q.Settings, systems: seq<System>, steps: seq<Step>)
    requires Run(cfg, systems, steps)
    ensures Q.Run(cfg, Queues(systems), Actions(systems, steps))
  {
    hide Coupled, Seen, Q.Next, Next;
    forall i | 0 <= i < |steps|
      ensures Q.Next(cfg, Queues(systems)[i], Actions(systems, steps)[i], Queues(systems)[i + 1])
    {
      AlwaysCoupled(cfg, systems, steps, i);
      assert Next(cfg, systems[i], steps[i], systems[i + 1]);
      StepIsQueueStep(cfg, systems[i], steps[i], systems[i + 1]);
    }
  }
}
