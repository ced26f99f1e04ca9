/** The reference-counted lock registries of analysis_runtime_service.py and
    stock_cache_service.py. A guarded registry body contains no suspension point, so looking up
    a lock, counting its user and trying to acquire it is one step; waiting is the only point
    where other tasks run. */
module LockRegistry {
  import opened Wrappers

  /** One entry into `async with`: every entry has a number of its own. */
  type Use = nat
  type LockId = nat

  /** An asyncio.Lock with its FIFO queue and the registry's user count. `abandoned` counts the
      waits that were cancelled: they never reach the exit that would uncount them. */
  datatype ManagedLock = ManagedLock(key: string, userCount: int, holder: Option<Use>, waiters: seq<Use>, abandoned: nat)

  /** All lock objects ever made, and the dictionary of the registered ones. */
  datatype Registry = Registry(locks: map<string, LockId>, objects: map<LockId, ManagedLock>, nextId: LockId)

  const EMPTY := Registry(map[], map[], 0)

  datatype Action =
    | Enter(use: Use, key: string)
    | Wake(id: LockId)
    | Exit(use: Use, id: LockId)
    | CancelWait(use: Use, id: LockId)

  // ---- one lock -------------------------------------------------------------------------

  predicate Uses(l: ManagedLock, use: Use) {
    l.holder == Some(use) || use in l.waiters
  }

  function Users(l: ManagedLock): nat {
    |l.waiters| + (if l.holder.Some? then 1 else 0)
  }

  function Join(l: ManagedLock, use: Use): ManagedLock {
    if l.holder.None? && l.waiters == [] then l.(userCount := l.userCount + 1, holder := Some(use))
    else l.(userCount := l.userCount + 1, waiters := l.waiters + [use])
  }

  function Without(waiters: seq<Use>, use: Use): seq<Use> {
    if waiters == [] then []
    else if waiters[0] == use then waiters[1..]
    else [waiters[0]] + Without(waiters[1..], use)
  }

  /** Dictionary entries refer to objects; in Python this is a reference. */
  predicate LocksExist(r: Registry) {
    forall key :: key in r.locks ==> r.locks[key] in r.objects
  }

  // ---- the registry ---------------------------------------------------------------------

  predicate InUse(r: Registry, use: Use) {
    exists id :: id in r.objects && Uses(r.objects[id], use)
  }

  predicate Enabled(r: Registry, a: Action) {
    match a
    case Enter(use, _) => !InUse(r, use)
    case Wake(id) => id in r.objects && r.objects[id].holder.None? && r.objects[id].waiters != []
    case Exit(use, id) => id in r.objects && r.objects[id].holder == Some(use)
    case CancelWait(use, id) => id in r.objects && use in r.objects[id].waiters
  }

  /** `get_lock`: the registered object, or a new one under a fresh identity. */
  function Lookup(r: Registry, key: string): (Registry, LockId) {
    if key in r.locks then (r, r.locks[key])
    else
      (Registry(r.locks[key := r.nextId],
                r.objects[r.nextId := ManagedLock(key, 0, None, [], 0)],
                r.nextId + 1),
       r.nextId)
  }

  /** `__aexit__`: release, uncount, and drop the entry when it is idle and still ours. */
  function Leave(r: Registry, id: LockId): Registry
    requires id in r.objects
  {
    var l := r.objects[id].(userCount := r.objects[id].userCount - 1, holder := None);
    var locks := if l.userCount == 0 && l.key in r.locks && r.locks[l.key] == id
                 then r.locks - {l.key} else r.locks;
    Registry(locks, r.objects[id := l], r.nextId)
  }

  function Apply(r: Registry, a: Action): Registry
    requires Enabled(r, a) && LocksExist(r)
  {
    match a
    case Enter(use, key) =>
      var (r', id) := Lookup(r, key);
      r'.(objects := r'.objects[id := Join(r'.objects[id], use)])
    case Wake(id) =>
      var l := r.objects[id];
      r.(objects := r.objects[id := l.(holder := Some(l.waiters[0]), waiters := l.waiters[1..])])
    case Exit(_, id) => Leave(r, id)
    case CancelWait(use, id) =>
      var l := r.objects[id];
      r.(objects := r.objects[id := l.(waiters := Without(l.waiters, use), abandoned := l.abandoned + 1)])
  }

  // ---- the invariant -----------------------------------------------------------------------

  predicate Distinct(waiters: seq<Use>) {
    forall i, j :: 0 <= i < j < |waiters| ==> waiters[i] != waiters[j]
  }

  predicate ValidLock(l: ManagedLock) {
    && l.userCount == Users(l) + l.abandoned
    && Distinct(l.waiters)
    && (l.holder.Some? ==> l.holder.value !in l.waiters)
  }

  predicate Registered(r: Registry, id: LockId) {
    id in r.objects && r.objects[id].key in r.locks && r.locks[r.objects[id].key] == id
  }

  /** Counts are exact, a lock object is registered exactly while it is counted, and a task
      uses one object at a time. */
  ghost predicate Valid(r: Registry) {
    && LocksExist(r)
    && (forall key :: key in r.locks ==> r.objects[r.locks[key]].key == key)
    && (forall id :: id in r.objects ==> id < r.nextId && ValidLock(r.objects[id]))
    && (forall id :: id in r.objects ==> (Registered(r, id) <==> r.objects[id].userCount > 0))
    && DisjointUses(r)
  }

  lemma {:induction false} WithoutFacts(waiters: seq<Use>, use: Use)
    requires use in waiters && Distinct(waiters)
    ensures |Without(waiters, use)| == |waiters| - 1
    ensures forall u :: u in Without(waiters, use) <==> u in waiters && u != use
    ensures Distinct(Without(waiters, use))
  {
    var rest := waiters[1..];
    assert forall i :: 0 <= i < |rest| ==> rest[i] == waiters[i + 1];
    assert waiters == [waiters[0]] + rest && waiters[0] !in rest;
    if waiters[0] != use {
      WithoutFacts(rest, use);
      assert waiters[0] !in Without(rest, use);
    }
  }

  lemma {:induction false} UsedIsRegistered(r: Registry, id: LockId)
    requires Valid(r) && id in r.objects
    ensures ValidLock(r.objects[id]) && (Users(r.objects[id]) > 0 ==> Registered(r, id))
  {
  }

  lemma {:induction false} JoinKeepsValidLock(l: ManagedLock, use: Use)
    requires ValidLock(l) && !Uses(l, use)
    ensures ValidLock(Join(l, use)) && Join(l, use).userCount == l.userCount + 1 && Join(l, use).key == l.key
    ensures forall u :: Uses(Join(l, use), u) <==> Uses(l, u) || u == use
  {
  }

  lemma {:induction false} LookupKeepsIndex(r: Registry, key: string)
    requires Valid(r)
    ensures var (r', id) := Lookup(r, key);
      && LocksExist(r') && id in r'.objects && ValidLock(r'.objects[id]) && Registered(r', id) && r'.objects[id].key == key
      && (forall i :: i in r.objects ==> i in r'.objects && r'.objects[i] == r.objects[i] && i < r'.nextId)
      && (forall i :: i in r'.objects && i != id ==> i in r.objects)
      && (forall i :: i in r.objects && i != id ==> (Registered(r', i) <==> Registered(r, i)))
      && (forall u :: !InUse(r, u) ==> !InUse(r', u))
      && (forall k :: k in r'.locks ==> r'.objects[r'.locks[k]].key == k)
      && (id !in r.objects ==> forall u :: !Uses(r'.objects[id], u))
      && id < r'.nextId
  {
  }

  ghost predicate DisjointUses(r: Registry) {
    forall id, id' :: id in r.objects && id' in r.objects && id != id' ==>
      forall use :: Uses(r.objects[id], use) ==> !Uses(r.objects[id'], use)
  }

  lemma {:induction false} JoinKeepsDisjoint(r: Registry, id: LockId, use: Use)
    requires DisjointUses(r) && id in r.objects && !InUse(r, use)
    ensures DisjointUses(r.(objects := r.objects[id := Join(r.objects[id], use)]))
  {
    assert forall u :: Uses(Join(r.objects[id], use), u) <==> Uses(r.objects[id], u) || u == use;
  }

  lemma {:induction false} LookupKeepsDisjoint(r: Registry, key: string)
    requires Valid(r)
    ensures DisjointUses(Lookup(r, key).0)
  {
  }

  /** A registered object gets one more user; all others are those of before. */
  lemma {:induction false} JoinedIsValid(r: Registry, looked: Registry, id: LockId, l: ManagedLock)
    requires forall i :: i in r.objects ==> ValidLock(r.objects[i]) && (Registered(r, i) <==> r.objects[i].userCount > 0)
    requires LocksExist(looked) && id in looked.objects && Registered(looked, id) && id < looked.nextId
    requires forall i :: i in r.objects ==> i in looked.objects && looked.objects[i] == r.objects[i] && i < looked.nextId
    requires forall i :: i in looked.objects && i != id ==> i in r.objects
    requires forall i :: i in r.objects && i != id ==> (Registered(looked, i) <==> Registered(r, i))
    requires forall k :: k in looked.locks ==> looked.objects[looked.locks[k]].key == k
    requires ValidLock(l) && l.userCount > 0 && l.key == looked.objects[id].key
    requires DisjointUses(looked.(objects := looked.objects[id := l]))
    ensures Valid(looked.(objects := looked.objects[id := l]))
  {
    hide ValidLock, DisjointUses;
    var r' := looked.(objects := looked.objects[id := l]);
    forall i | i in r'.objects
      ensures i < r'.nextId && ValidLock(r'.objects[i]) && (Registered(r', i) <==> r'.objects[i].userCount > 0)
    {
      assert Registered(r', i) <==> Registered(looked, i);
    }
  }

  lemma {:induction false} EnterKeepsValid(r: Registry, use: Use, key: string)
    requires Valid(r) && !InUse(r, use)
    ensures Valid(Apply(r, Enter(use, key)))
  {
    LookupKeepsIndex(r, key);
    LookupKeepsDisjoint(r, key);
    var (looked, id) := Lookup(r, key);
    JoinKeepsValidLock(looked.objects[id], use);
    JoinKeepsDisjoint(looked, id, use);
    assert Apply(r, Enter(use, key)) == looked.(objects := looked.objects[id := Join(looked.objects[id], use)]);
    hide Join, Lookup, DisjointUses, Uses, InUse, Apply;
    forall i | i in r.objects
      ensures ValidLock(r.objects[i]) && (Registered(r, i) <==> r.objects[i].userCount > 0)
    {
    }
    JoinedIsValid(r, looked, id, Join(looked.objects[id], use));
  }

  /** Replacing a registered object by one with no new user keeps the invariant, provided the
      entry goes exactly when the count does. */
  lemma {:induction false} ReplaceKeepsValid(r: Registry, id: LockId, l: ManagedLock, locks: map<string, LockId>)
    requires Valid(r) && Registered(r, id)
    requires ValidLock(l) && l.key == r.objects[id].key
    requires forall u :: Uses(l, u) ==> Uses(r.objects[id], u)
    requires locks == if l.userCount == 0 then r.locks - {l.key} else r.locks
    ensures Valid(Registry(locks, r.objects[id := l], r.nextId))
  {
    var r' := Registry(locks, r.objects[id := l], r.nextId);
    forall i | i in r'.objects
      ensures Registered(r', i) <==> r'.objects[i].userCount > 0
    {
      if i != id {
        assert Registered(r', i) <==> Registered(r, i);
      }
    }
  }

  lemma {:induction false} LeaveKeepsValid(r: Registry, id: LockId)
    requires Valid(r) && id in r.objects && r.objects[id].holder.Some?
    ensures Valid(Leave(r, id))
  {
    hide Valid;
    UsedIsRegistered(r, id);
    var l := r.objects[id].(userCount := r.objects[id].userCount - 1, holder := None);
    ReplaceKeepsValid(r, id, l, if l.userCount == 0 then r.locks - {l.key} else r.locks);
  }

  lemma {:induction false} WakeKeepsValid(r: Registry, id: LockId)
    requires Valid(r) && Enabled(r, Wake(id))
    ensures Valid(Apply(r, Wake(id)))
  {
    hide Valid;
    UsedIsRegistered(r, id);
    var l := r.objects[id];
    ReplaceKeepsValid(r, id, l.(holder := Some(l.waiters[0]), waiters := l.waiters[1..]), r.locks);
  }

  lemma {:induction false} CancelKeepsValid(r: Registry, use: Use, id: LockId)
    requires Valid(r) && Enabled(r, CancelWait(use, id))
    ensures Valid(Apply(r, CancelWait(use, id)))
  {
    hide Valid;
    UsedIsRegistered(r, id);
    var l := r.objects[id];
    WithoutFacts(l.waiters, use);
    ReplaceKeepsValid(r, id, l.(waiters := Without(l.waiters, use), abandoned := l.abandoned + 1), r.locks);
  }

  /** Every step keeps the invariant. */
  lemma {:induction false} StepKeepsValid(r: Registry, a: Action)
    requires Valid(r) && Enabled(r, a)
    ensures Valid(Apply(r, a))
  {
    match a
    case Enter(use, key) => EnterKeepsValid(r, use, key);
    case Wake(id) => WakeKeepsValid(r, id);
    case Exit(_, id) => LeaveKeepsValid(r, id);
    case CancelWait(use, id) => CancelKeepsValid(r, use, id);
  }

  lemma {:induction false} EnterIsJoin(r: Registry, use: Use, key: string)
    requires Valid(r) && !InUse(r, use)
    ensures var (looked, id) := Lookup(r, key);
      && id in looked.objects && looked.objects[id].key == key && !Uses(looked.objects[id], use)
      && Apply(r, Enter(use, key)) == looked.(objects := looked.objects[id := Join(looked.objects[id], use)])
  {
    hide DisjointUses, ValidLock;
  }

  // ---- all interleavings ------------------------------------------------------------------------

  ghost predicate Takes(r: Registry, a: Action, r': Registry) {
    Enabled(r, a) && LocksExist(r) && r' == Apply(r, a)
  }

  /** Any interleaving of steps of any number of tasks, from the empty registry. */
  ghost predicate Interleaving(states: seq<Registry>, actions: seq<Action>) {
    && |states| == |actions| + 1 && states[0] == EMPTY
    && forall i :: 0 <= i < |actions| ==> Takes(states[i], actions[i], states[i + 1])
  }

  lemma {:induction false} AlwaysValid(states: seq<Registry>, actions: seq<Action>, n: nat)
    requires Interleaving(states, actions) && n < |states|
    ensures Valid(states[n])
  {
    if n > 0 {
      AlwaysValid(states, actions, n - 1);
      assert Takes(states[n - 1], actions[n - 1], states[n - 1 + 1]);
      StepKeepsValid(states[n - 1], actions[n - 1]);
    }
  }

  /** In every interleaving: all users of a key share the registered object, so at most one
      task holds the key; and the dictionary never points to an object of another key. */
  lemma {:induction false} MutualExclusion(states: seq<Registry>, actions: seq<Action>, n: nat, id: LockId, use: Use)
    requires Interleaving(states, actions) && n < |states|
    requires id in states[n].objects && Uses(states[n].objects[id], use)
    ensures Registered(states[n], id)
    ensures forall id' :: id' in states[n].objects && id' != id && states[n].objects[id'].key == states[n].objects[id].key ==>
              Users(states[n].objects[id']) == 0
  {
    AlwaysValid(states, actions, n);
    var r := states[n];
    assert ValidLock(r.objects[id]);
    forall id' | id' in r.objects && id' != id && r.objects[id'].key == r.objects[id].key
      ensures Users(r.objects[id']) == 0
    {
      assert ValidLock(r.objects[id']);
      assert !Registered(r, id');
    }
  }

  /** An entry disappears only in a step after which nobody holds or awaits its object, and a
      registered key is one with users or with abandoned waits. */
  lemma {:induction false} RemovedOnlyWhenUnused(r: Registry, a: Action, key: string)
    requires Valid(r) && Enabled(r, a) && key in r.locks && key !in Apply(r, a).locks
    ensures r.locks[key] in Apply(r, a).objects && Users(Apply(r, a).objects[r.locks[key]]) == 0
    ensures forall id :: id in Apply(r, a).objects && Apply(r, a).objects[id].key == key ==>
              Users(Apply(r, a).objects[id]) == 0
  {
    StepKeepsValid(r, a);
    var r' := Apply(r, a);
    forall id | id in r'.objects && r'.objects[id].key == key
      ensures Users(r'.objects[id]) == 0
    {
      assert !Registered(r', id) && ValidLock(r'.objects[id]);
    }
  }

  ghost predicate NoCancellation(actions: seq<Action>) {
    forall i :: 0 <= i < |actions| ==> !actions[i].CancelWait?
  }

  lemma {:induction false} NothingAbandoned(states: seq<Registry>, actions: seq<Action>, n: nat)
    requires Interleaving(states, actions) && NoCancellation(actions) && n < |states|
    ensures forall id :: id in states[n].objects ==> states[n].objects[id].abandoned == 0
  {
    if n > 0 {
      NothingAbandoned(states, actions, n - 1);
      assert Takes(states[n - 1], actions[n - 1], states[n - 1 + 1]);
    }
  }

  ghost predicate Counted(r: Registry, key: string) {
    exists id :: id in r.objects && r.objects[id].key == key && Users(r.objects[id]) + r.objects[id].abandoned > 0
  }

  /** A key stays in the dictionary exactly while some object of that key has a user or an
      abandoned wait; without cancellation the dictionary is empty once no task uses it. */
  lemma {:induction false} NoLeak(states: seq<Registry>, actions: seq<Action>, n: nat)
    requires Interleaving(states, actions) && n < |states|
    ensures forall key :: key in states[n].locks <==> Counted(states[n], key)
    ensures NoCancellation(actions) ==>
              (states[n].locks == map[] <==>
                 forall id :: id in states[n].objects ==> Users(states[n].objects[id]) == 0)
    ensures NoCancellation(actions) ==>
              forall id :: id in states[n].objects ==> states[n].objects[id].userCount == Users(states[n].objects[id])
  {
    AlwaysValid(states, actions, n);
    var r := states[n];
    forall key
      ensures key in r.locks <==> Counted(r, key)
    {
      if key in r.locks {
        var id := r.locks[key];
        assert Registered(r, id) && ValidLock(r.objects[id]);
      }
      if id :| id in r.objects && r.objects[id].key == key && Users(r.objects[id]) + r.objects[id].abandoned > 0 {
        assert ValidLock(r.objects[id]) && Registered(r, id);
      }
    }
    if NoCancellation(actions) {
      NothingAbandoned(states, actions, n);
      forall id | id in r.objects
        ensures r.objects[id].userCount == Users(r.objects[id])
      {
        assert ValidLock(r.objects[id]);
      }
    }
  }

  /** A cancelled wait is never uncounted: its key stays registered, under the same object, in
      every later state. */
  lemma {:induction false} CancelledWaitLeaks(states: seq<Registry>, actions: seq<Action>, i: nat, n: nat)
    requires Interleaving(states, actions) && i < n < |states| && actions[i].CancelWait?
    ensures var id := actions[i].id;
      && id in states[n].objects && states[n].objects[id].userCount > Users(states[n].objects[id])
      && states[n].objects[id].key in states[n].locks && states[n].locks[states[n].objects[id].key] == id
    decreases n
  {
    AlwaysValid(states, actions, n);
    hide Valid, Interleaving;
    StillAbandoned(states, actions, i, n);
    AbandonedIsCounted(states[n], actions[i].id);
  }

  lemma {:induction false} AbandonedIsCounted(r: Registry, id: LockId)
    requires Valid(r) && id in r.objects && r.objects[id].abandoned > 0
    ensures Registered(r, id) && r.objects[id].userCount > Users(r.objects[id])
  {
    assert ValidLock(r.objects[id]);
  }

  lemma {:induction false} StillAbandoned(states: seq<Registry>, actions: seq<Action>, i: nat, n: nat)
    requires Interleaving(states, actions) && i < n < |states| && actions[i].CancelWait?
    ensures actions[i].id in states[n].objects && states[n].objects[actions[i].id].abandoned > 0
    decreases n
  {
    assert Takes(states[n - 1], actions[n - 1], states[n - 1 + 1]);
    if i < n - 1 {
      StillAbandoned(states, actions, i, n - 1);
      AlwaysValid(states, actions, n - 1);
      KeepsAbandoned(states[n - 1], actions[n - 1], actions[i].id);
    }
  }

  lemma {:induction false} KeepsAbandoned(r: Registry, a: Action, id: LockId)
    requires Valid(r) && Enabled(r, a) && id in r.objects
    ensures id in Apply(r, a).objects && Apply(r, a).objects[id].abandoned >= r.objects[id].abandoned
  {
  }

  // ---- the registry refines one mutex per key -------------------------------------------------

  /** Who holds the key. */
  ghost function Owner(r: Registry, key: string): Option<Use> {
    if key in r.locks && r.locks[key] in r.objects then r.objects[r.locks[key]].holder else None
  }

  /** What a mutex allows: keep the owner, take a free key, or give up one's own. */
  ghost predicate MutexStep(before: Option<Use>, after: Option<Use>, a: Action) {
    || before == after
    || (before == None && after.Some? && (a.Wake? || (a.Enter? && after == Some(a.use))))
    || (before.Some? && after == None && a.Exit? && before == Some(a.use))
  }

  lemma {:induction false} EnterRefinesMutex(r: Registry, use: Use, k: string, key: string)
    requires Valid(r) && !InUse(r, use)
    ensures MutexStep(Owner(r, key), Owner(Apply(r, Enter(use, k)), key), Enter(use, k))
  {
    assert forall k :: k in r.locks ==> r.locks[k] in r.objects && r.objects[r.locks[k]].key == k;
  }

  /** Seen from one key, a step of the registry is a step of a single mutex. */
  lemma {:induction false} RefinesMutex(r: Registry, a: Action, key: string)
    requires Valid(r) && Enabled(r, a)
    ensures MutexStep(Owner(r, key), Owner(Apply(r, a), key), a)
  {
    if a.Enter? {
      EnterRefinesMutex(r, a.use, a.key, key);
    } else {
      var id := match a case Wake(id) => id case Exit(_, id) => id case CancelWait(_, id) => id;
      UsedIsRegistered(r, id);
      assert key in r.locks && r.locks[key] == id ==> r.objects[id].key == key;
    }
  }

  /** Waiting is first in, first out: whatever step is taken, a waiting task that does not
      give up becomes the holder or keeps at most its place in the queue. */
  lemma {:induction false} NoOvertaking(r: Registry, a: Action, id: LockId, i: nat)
    requires Valid(r) && Enabled(r, a)
    requires id in r.objects && i < |r.objects[id].waiters| && a != CancelWait(r.objects[id].waiters[i], id)
    ensures id in Apply(r, a).objects
    ensures var l, use := Apply(r, a).objects[id], r.objects[id].waiters[i];
      l.holder == Some(use) || exists j :: 0 <= j <= i && j < |l.waiters| && l.waiters[j] == use
  {
    var l, l' := r.objects[id], Apply(r, a).objects[id];
    assert ValidLock(l);
    if a.Wake? && a.id == id {
      assert i > 0 ==> l'.waiters[i - 1] == l.waiters[i];
    } else if a.CancelWait? && a.id == id {
      WithoutKeepsOrder(l.waiters, a.use, i);
    } else {
      assert l'.waiters[i] == l.waiters[i];
    }
  }

  lemma {:induction false} WithoutKeepsOrder(waiters: seq<Use>, use: Use, i: nat)
    requires i < |waiters| && waiters[i] != use
    ensures exists j :: 0 <= j <= i && j < |Without(waiters, use)| && Without(waiters, use)[j] == waiters[i]
  {
    if waiters[0] == use {
      assert Without(waiters, use)[i - 1] == waiters[i];
    } else if i == 0 {
      assert Without(waiters, use)[0] == waiters[0];
    } else {
      WithoutKeepsOrder(waiters[1..], use, i - 1);
      var j :| 0 <= j <= i - 1 && j < |Without(waiters[1..], use)| && Without(waiters[1..], use)[j] == waiters[1..][i - 1];
      assert Without(waiters, use)[j + 1] == waiters[i];
    }
  }

  // ---- the program --------------------------------------------------------------------------------

  class SessionLockRegistry {
    var locks: map<string, LockId>
    var objects: map<LockId, ManagedLock>
    var nextId: LockId

    ghost function Contents(): Registry
      reads this
    {
      Registry(locks, objects, nextId)
    }

    constructor ()
      ensures Contents() == EMPTY && Valid(Contents())
    {
      locks, objects, nextId := map[], map[], 0;
    }

    method GetLock(key: string) returns (id: LockId)
      requires Valid(Contents())
      modifies this
      ensures (Contents(), id) == Lookup(old(Contents()), key)
      ensures key in locks && locks[key] == id && id in objects && objects[id].key == key
      ensures key in old(locks) ==> Contents() == old(Contents())
      ensures key !in old(locks) ==>
        && id !in old(objects) && locks == old(locks)[key := id]
        && objects == old(objects)[id := ManagedLock(key, 0, None, [], 0)]
    {
      if key !in locks {
        locks := locks[key := nextId];
        objects := objects[nextId := ManagedLock(key, 0, None, [], 0)];
        nextId := nextId + 1;
      }
      id := locks[key];
    }

    /** `session_lock(key).__aenter__` up to its suspension point; `acquired` tells whether the
        caller goes on at once. */
    method EnterContext(use: Use, key: string) returns (id: LockId, acquired: bool)
      requires Valid(Contents()) && !InUse(Contents(), use)
      modifies this
      ensures Valid(Contents()) && Contents() == Apply(old(Contents()), Enter(use, key))
      ensures id in objects && Uses(objects[id], use) && objects[id].key == key
      ensures acquired <==> objects[id].holder == Some(use)
      // a key nobody holds or waits for is taken at once; else the use waits behind all others
      ensures acquired <==> key !in old(locks) || (old(objects)[old(locks)[key]].holder.None? && old(objects)[old(locks)[key]].waiters == [])
      ensures key in locks && locks[key] == id
      ensures key in old(locks) ==> id == old(locks)[key] && objects[id].userCount == old(objects)[id].userCount + 1
      ensures key !in old(locks) ==> objects[id].userCount == 1
      ensures !acquired ==> objects[id].waiters == old(objects)[id].waiters + [use] && objects[id].holder == old(objects)[id].holder
    {
      ghost var before := Contents();
      hide Valid, InUse;
      EnterKeepsValid(before, use, key);
      EnterIsJoin(before, use, key);
      id := GetLock(key);
      hide Lookup, Apply;
      var l := objects[id];
      l := l.(userCount := l.userCount + 1);
      if l.holder.None? && l.waiters == [] {
        l := l.(holder := Some(use));
        acquired := true;
      } else {
        l := l.(waiters := l.waiters + [use]);
        acquired := false;
      }
      objects := objects[id := l];
    }

    /** The event loop resumes the first waiter of a released lock. */
    method ResumeFirstWaiter(id: LockId) returns (use: Use)
      requires Valid(Contents()) && Enabled(Contents(), Wake(id))
      modifies this
      ensures Valid(Contents()) && Contents() == Apply(old(Contents()), Wake(id))
      ensures id in objects && objects[id].holder == Some(use)
      ensures old(objects)[id].waiters == [use] + objects[id].waiters && objects[id].userCount == old(objects)[id].userCount
    {
      WakeKeepsValid(Contents(), id);
      use := objects[id].waiters[0];
      objects := objects[id := objects[id].(holder := Some(use), waiters := objects[id].waiters[1..])];
    }

    method ReleaseIfIdle(key: string, id: LockId)
      requires id in objects
      modifies this`locks
      ensures locks == if objects[id].userCount == 0 && key in old(locks) && old(locks)[key] == id
                       then old(locks) - {key} else old(locks)
    {
      if objects[id].userCount == 0 && key in locks && locks[key] == id {
        locks := locks - {key};
      }
    }

    /** `__aexit__`: the lock is released before the user is uncounted. */
    method ExitContext(use: Use, id: LockId)
      requires Valid(Contents()) && Enabled(Contents(), Exit(use, id))
      modifies this
      ensures Valid(Contents()) && Contents() == Apply(old(Contents()), Exit(use, id))
      ensures id in objects && objects[id].holder.None? && objects[id].waiters == old(objects)[id].waiters
      ensures objects[id].userCount == old(objects)[id].userCount - 1
      ensures objects[id].key in locks <==> objects[id].userCount > 0
    {
      hide Valid;
      LeaveKeepsValid(Contents(), id);
      UsedIsRegistered(Contents(), id);
      objects := objects[id := objects[id].(holder := None)];
      objects := objects[id := objects[id].(userCount := objects[id].userCount - 1)];
      ReleaseIfIdle(objects[id].key, id);
      assert Contents() == Leave(old(Contents()), id);
    }
  }
}
