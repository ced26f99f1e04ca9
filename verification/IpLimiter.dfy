/** The fixed-window limiter of `check_and_increment_ip_limits` (cache/redis.py): a counter that
    is incremented by every call and given its expiry by whoever saw it become one. Increment and
    expiry are two commands; calls of any number of clients fall between them. */
module IpLimiter {
  import opened Wrappers

  /** A counter without expiry stays until it gets one. */
  datatype Counter = Counter(count: nat, expires: Option<int>)

  /** One window's key. `generation` counts how often the key was created, `born` is when it was
      last; `pending` says that the creator has not set the expiry yet. */
  datatype State = State(now: int, key: Option<Counter>, generation: nat, born: int, pending: bool)

  /** `admitted` marks the calls that go through: this window must allow them, the other window
      may still refuse. */
  datatype Action =
    | Tick(to: int)
    | Incr(admitted: bool)
    | Expire
    | GiveUp

  datatype Settings = Settings(window: nat, limit: nat)

  predicate Live(s: State) {
    s.key.Some? && (s.key.value.expires.Some? ==> s.now < s.key.value.expires.value)
  }

  function Incremented(s: State): State {
    if Live(s) then s.(key := Some(s.key.value.(count := s.key.value.count + 1)))
    else State(s.now, Some(Counter(1, None)), s.generation + 1, s.now, true)
  }

  predicate Next(cfg: Settings, s: State, a: Action, s': State) {
    match a
    case Tick(to) => s.now <= to && s' == s.(now := to)
    case Incr(admitted) => s' == Incremented(s) && (admitted ==> s'.key.value.count <= cfg.limit)
    case Expire =>
      s.pending && s.key.Some? && s' == s.(key := Some(s.key.value.(expires := Some(s.now + cfg.window))), pending := false)
    case GiveUp => s.pending && s' == s.(pending := false)
  }

  ghost predicate Run(cfg: Settings, states: seq<State>, actions: seq<Action>) {
    && |states| == |actions| + 1 && states[0].key.None? && states[0].generation == 0 && !states[0].pending
    && forall i :: 0 <= i < |actions| ==> Next(cfg, states[i], actions[i], states[i + 1])
  }

  // ---- generations of the key ------------------------------------------------------------------

  /** An expiry is at least a window after the key's birth, and only the creator can still set it. */
  predicate KeyInv(cfg: Settings, s: State) {
    && (s.key.None? ==> s.generation == 0 && !s.pending)
    && (s.key.Some? ==> s.born <= s.now && s.generation > 0 && s.key.value.count > 0)
    && (s.key.Some? && s.key.value.expires.Some? ==> !s.pending && s.born + cfg.window <= s.key.value.expires.value)
  }

  /** What holds of a later state s' when a call was counted on the way into s. */
  predicate After(cfg: Settings, s: State, s': State) {
    && s'.key.Some? && s.key.Some? && s.generation <= s'.generation && s.now <= s'.now
    && (s'.generation == s.generation ==> s'.born == s.born && s.key.value.count <= s'.key.value.count)
    && (s'.generation == s.generation && s'.key.value.expires.Some? ==> s.now < s'.key.value.expires.value)
    && (s'.generation > s.generation ==> s.now < s'.born && s.born + cfg.window <= s'.born)
    && (s'.generation > s.generation + 1 ==> s.now + cfg.window < s'.born)
  }

  lemma {:induction false} KeyStep(cfg: Settings, s: State, a: Action, s': State)
    requires Next(cfg, s, a, s') && KeyInv(cfg, s)
    ensures KeyInv(cfg, s')
  {
  }

  lemma {:induction false} AfterStep(cfg: Settings, s: State, s1: State, a: Action, s2: State)
    requires Next(cfg, s1, a, s2) && KeyInv(cfg, s1) && After(cfg, s, s1) && cfg.window > 0
    ensures After(cfg, s, s2)
    ensures a.Incr? && s2.generation == s.generation ==> s.key.value.count < s2.key.value.count
  {
  }

  lemma {:induction false} AlwaysKey(cfg: Settings, states: seq<State>, actions: seq<Action>, i: nat)
    requires Run(cfg, states, actions) && i < |states|
    ensures KeyInv(cfg, states[i])
  {
    if i > 0 {
      AlwaysKey(cfg, states, actions, i - 1);
      assert Next(cfg, states[i - 1], actions[i - 1], states[i - 1 + 1]);
      KeyStep(cfg, states[i - 1], actions[i - 1], states[i]);
    }
  }

  /** Call i, counted between states i and i + 1. */
  lemma {:induction false} AfterCall(cfg: Settings, states: seq<State>, actions: seq<Action>, i: nat, j: nat)
    requires Run(cfg, states, actions) && i < j < |states| && actions[i].Incr? && cfg.window > 0
    ensures After(cfg, states[i + 1], states[j])
    decreases j
  {
    AlwaysKey(cfg, states, actions, i);
    assert Next(cfg, states[i], actions[i], states[i + 1]);
    if j > i + 1 {
      hide Next, KeyInv, After;
      AfterCall(cfg, states, actions, i, j - 1);
      AlwaysKey(cfg, states, actions, j - 1);
      assert Next(cfg, states[j - 1], actions[j - 1], states[j - 1 + 1]);
      AfterStep(cfg, states[i + 1], states[j - 1], actions[j - 1], states[j]);
    }
  }

  /** Of two calls the later is in a later generation or has a higher count; calls two
      generations apart are more than a window apart. */
  lemma {:induction false} TwoCalls(cfg: Settings, states: seq<State>, actions: seq<Action>, i: nat, j: nat)
    requires Run(cfg, states, actions) && i < j < |actions| && actions[i].Incr? && actions[j].Incr? && cfg.window > 0
    ensures states[i + 1].key.Some? && states[j + 1].key.Some?
    ensures states[i + 1].generation <= states[j + 1].generation && states[i].now <= states[j].now
    ensures states[i + 1].generation == states[j + 1].generation ==>
              states[i + 1].key.value.count < states[j + 1].key.value.count && states[i + 1].born == states[j + 1].born
    ensures states[i + 1].generation + 1 == states[j + 1].generation ==>
              states[i + 1].born + cfg.window <= states[j + 1].born <= states[j].now
    ensures states[i + 1].generation + 1 < states[j + 1].generation ==> states[i].now + cfg.window < states[j].now
  {
    AfterCall(cfg, states, actions, i, j);
    AlwaysKey(cfg, states, actions, i);
    AlwaysKey(cfg, states, actions, j);
    AlwaysKey(cfg, states, actions, j + 1);
    assert Next(cfg, states[i], actions[i], states[i + 1]);
    assert Next(cfg, states[j], actions[j], states[j + 1]);
    AfterStep(cfg, states[i + 1], states[j], actions[j], states[j + 1]);
  }

  // ---- counting --------------------------------------------------------------------------------

  predicate Admitted(states: seq<State>, actions: seq<Action>, from: int, to: int, i: int) {
    0 <= i < |actions| && i < |states| && actions[i].Incr? && actions[i].admitted && from <= states[i].now < to
  }

  /** The calls that go through in the half-open span. */
  function AdmittedIn(states: seq<State>, actions: seq<Action>, from: int, to: int): set<int> {
    set i | 0 <= i < |actions| && Admitted(states, actions, from, to, i)
  }

  /** Distinct places between lo and hi: no more keys than places. */
  lemma {:induction false} PlacesBound(places: map<int, int>, lo: int, hi: int)
    requires lo <= hi + 1
    requires forall i :: i in places ==> lo <= places[i] <= hi
    requires forall i, j :: i in places && j in places && i != j ==> places[i] != places[j]
    ensures |places.Keys| <= hi - lo + 1
    decreases hi - lo + 1
  {
    if some :| some in places {
      assert lo <= places[some] <= hi;
      if top :| top in places && places[top] == hi {
        var rest := places - {top};
        assert rest.Keys == places.Keys - {top};
        PlacesBound(rest, lo, hi - 1);
      } else {
        PlacesBound(places, lo, hi - 1);
      }
    } else {
      assert forall i :: i !in places;
      assert places.Keys == {};
    }
  }

  /** The place of call i: its count, behind the whole first generation when in the second. */
  function Place(cfg: Settings, states: seq<State>, first: nat, i: int): int
    requires 0 <= i && i + 1 < |states| && states[i + 1].key.Some?
  {
    states[i + 1].key.value.count + if states[i + 1].generation == first then 0 else cfg.limit
  }

  lemma {:induction false} CallCounts(cfg: Settings, states: seq<State>, actions: seq<Action>, i: nat)
    requires Run(cfg, states, actions) && i < |actions| && actions[i].Incr?
    ensures states[i + 1].key.Some? && states[i + 1].born <= states[i].now
    ensures 1 <= states[i + 1].key.value.count && (actions[i].admitted ==> states[i + 1].key.value.count <= cfg.limit)
    ensures states[i + 1].key.value.count == 1 <==> states[i + 1].generation != states[i].generation
    ensures states[i + 1].key.value.count == 1 ==> states[i + 1].born == states[i].now
  {
    AlwaysKey(cfg, states, actions, i);
    assert Next(cfg, states[i], actions[i], states[i + 1]);
  }

  /** Two admitted calls of one span have distinct places within two generations. */
  lemma {:induction false} PlacesDiffer(cfg: Settings, states: seq<State>, actions: seq<Action>, from: int, to: int, p: nat, i: nat, j: nat)
    requires Run(cfg, states, actions) && cfg.window > 0 && to <= from + cfg.window + 1
    requires Admitted(states, actions, from, to, p) && Admitted(states, actions, from, to, i) && Admitted(states, actions, from, to, j)
    requires p <= i < j
    ensures states[i + 1].key.Some? && states[j + 1].key.Some?
    ensures states[p + 1].generation <= states[j + 1].generation <= states[p + 1].generation + 1
    ensures Place(cfg, states, states[p + 1].generation, i) < Place(cfg, states, states[p + 1].generation, j)
  {
    TwoCalls(cfg, states, actions, i, j);
    TwoCalls(cfg, states, actions, p, j);
    CallCounts(cfg, states, actions, i);
    CallCounts(cfg, states, actions, j);
    if p < i { TwoCalls(cfg, states, actions, p, i); }
  }

  lemma {:induction false} FirstAdmitted(states: seq<State>, actions: seq<Action>, from: int, to: int, q: int) returns (p: nat)
    requires Admitted(states, actions, from, to, q)
    ensures Admitted(states, actions, from, to, p) && forall i :: Admitted(states, actions, from, to, i) ==> p <= i
    decreases q
  {
    if i :| 0 <= i < q && Admitted(states, actions, from, to, i) {
      p := FirstAdmitted(states, actions, from, to, i);
    } else {
      p := q;
    }
  }

  /** The places of the span's calls, all below twice the limit. */
  lemma {:induction false} PlacesOfSpan(cfg: Settings, states: seq<State>, actions: seq<Action>, from: int, to: int, p: nat)
      returns (places: map<int, int>)
    requires Run(cfg, states, actions) && cfg.window > 0 && to <= from + cfg.window + 1
    requires Admitted(states, actions, from, to, p) && forall i :: Admitted(states, actions, from, to, i) ==> p <= i
    ensures places.Keys == AdmittedIn(states, actions, from, to)
    ensures forall i :: i in places ==> states[i + 1].key.Some? && places[i] == Place(cfg, states, states[p + 1].generation, i)
    ensures forall i :: i in places ==> 1 <= places[i] <= 2 * cfg.limit
    ensures forall i, j :: i in places && j in places && i != j ==> places[i] != places[j]
  {
    var calls := AdmittedIn(states, actions, from, to);
    forall i: int | i in calls
      ensures states[i + 1].key.Some? && 1 <= Place(cfg, states, states[p + 1].generation, i) <= 2 * cfg.limit
    {
      CallCounts(cfg, states, actions, i);
    }
    forall i: int, j: int | i in calls && j in calls && i < j
      ensures Place(cfg, states, states[p + 1].generation, i) < Place(cfg, states, states[p + 1].generation, j)
    {
      PlacesDiffer(cfg, states, actions, from, to, p, i, j);
    }
    places := map i | i in calls :: Place(cfg, states, states[p + 1].generation, i);
  }

  /** In every run, any span of one window, both ends included, admits at most twice the limit. */
  lemma {:induction false} AtMostTwice(cfg: Settings, states: seq<State>, actions: seq<Action>, from: int)
    requires Run(cfg, states, actions) && cfg.window > 0
    ensures |AdmittedIn(states, actions, from, from + cfg.window + 1)| <= 2 * cfg.limit
  {
    var calls := AdmittedIn(states, actions, from, from + cfg.window + 1);
    if calls != {} {
      var q :| q in calls;
      var p := FirstAdmitted(states, actions, from, from + cfg.window + 1, q);
      var places := PlacesOfSpan(cfg, states, actions, from, from + cfg.window + 1, p);
      PlacesBound(places, 1, 2 * cfg.limit);
    }
  }

  /** Where the call that created the key lies in the span, the next generation lies beyond it. */
  lemma {:induction false} FirstTakesPlace(cfg: Settings, states: seq<State>, actions: seq<Action>, from: int, p: nat, i: nat)
    requires Run(cfg, states, actions) && cfg.window > 0
    requires Admitted(states, actions, from, from + cfg.window, p) && Admitted(states, actions, from, from + cfg.window, i)
    requires p <= i && states[p + 1].key.Some? && states[p + 1].key.value.count == 1
    ensures states[i + 1].generation == states[p + 1].generation
  {
    CallCounts(cfg, states, actions, p);
    if p < i {
      TwoCalls(cfg, states, actions, p, i);
    }
  }

  /** A half-open span of one window admits one call less: at most twice the limit minus one. */
  lemma {:induction false} BelowTwice(cfg: Settings, states: seq<State>, actions: seq<Action>, from: int)
    requires Run(cfg, states, actions) && cfg.window > 0 && cfg.limit > 0
    ensures |AdmittedIn(states, actions, from, from + cfg.window)| <= 2 * cfg.limit - 1
  {
    var to := from + cfg.window;
    var calls := AdmittedIn(states, actions, from, to);
    if calls != {} {
      var q :| q in calls;
      var p := FirstAdmitted(states, actions, from, to, q);
      var places := PlacesOfSpan(cfg, states, actions, from, to, p);
      CallCounts(cfg, states, actions, p);
      if states[p + 1].key.value.count == 1 {
        forall i: int | i in places
          ensures places[i] <= cfg.limit
        {
          FirstTakesPlace(cfg, states, actions, from, p, i);
          CallCounts(cfg, states, actions, i);
        }
        PlacesBound(places, 1, cfg.limit);
      } else {
        assert places[p] > 1;
        forall i: int | i in places
          ensures places[i] > 1
        {
          if p < i { PlacesDiffer(cfg, states, actions, from, to, p, p, i); }
        }
        PlacesBound(places, 2, 2 * cfg.limit);
      }
    }
  }

  // ---- the expiry that is never set -------------------------------------------------------------

  /** The key has no expiry and nobody left to set one. */
  predicate Stuck(s: State) {
    s.key.Some? && s.key.value.expires.None? && !s.pending
  }

  /** When the creator of the key gives up before setting its expiry, the window never ends: once
      the limit is used up no call goes through any more. */
  lemma {:induction false} LostExpiryBlocks(cfg: Settings, states: seq<State>, actions: seq<Action>, i: nat, j: nat)
    requires Run(cfg, states, actions) && i <= j < |states|
    requires Stuck(states[i]) && states[i].key.value.count >= cfg.limit
    ensures Stuck(states[j]) && states[j].key.value.count >= cfg.limit
    ensures j < |actions| && actions[j].Incr? ==> !actions[j].admitted
    decreases j
  {
    if i < j {
      LostExpiryBlocks(cfg, states, actions, i, j - 1);
      assert Next(cfg, states[j - 1], actions[j - 1], states[j - 1 + 1]);
    }
    if j < |actions| {
      assert Next(cfg, states[j], actions[j], states[j + 1]);
    }
  }

  // ---- the service method --------------------------------------------------------------------------

  datatype Key =
    | Minute(scene: string, ip: string)
    | Day(scene: string, ip: string)

  /** What one call leaves on a key: one more on a counter that has not expired, which keeps its
      expiry, else a first count with an expiry one window ahead. */
  predicate Counted(before: map<Key, Counter>, key: Key, now: int, window: nat, after: map<Key, Counter>) {
    && key in after
    && (key in before && (before[key].expires.None? || now < before[key].expires.value) ==>
          after[key].count == before[key].count + 1 && (after[key].count > 1 ==> after[key].expires == before[key].expires))
    && (key in before && before[key].expires.Some? && before[key].expires.value <= now ==> after[key].count == 1)
    && (key !in before ==> after[key].count == 1)
    && (after[key].count == 1 ==> after[key].expires == Some(now + window))
  }

  class EmailVerificationStore {
    var counters: map<Key, Counter>
    var blocked: map<string, int>

    constructor ()
      ensures counters == map[] && blocked == map[]
    {
      counters, blocked := map[], map[];
    }

    /** The count a call arriving now gets on the key. */
    function NextCount(key: Key, now: int): nat
      reads this
    {
      if key in counters && (counters[key].expires.Some? ==> now < counters[key].expires.value) then counters[key].count + 1
      else 1
    }

    /** INCR, and EXPIRE by whoever creates the key. */
    method Count(key: Key, window: nat, now: int) returns (count: nat)
      modifies this`counters
      ensures count == old(NextCount(key, now)) && key in counters && counters[key].count == count
      ensures key in old(counters) && (old(counters)[key].expires.None? || now < old(counters)[key].expires.value) ==>
                count == old(counters)[key].count + 1
      ensures key !in old(counters) || (old(counters)[key].expires.Some? && old(counters)[key].expires.value <= now) ==> count == 1
      ensures counters == old(counters)[key := counters[key]]
      ensures count == 1 ==> counters[key].expires == Some(now + window)
      ensures count > 1 ==> key in old(counters) && counters[key].expires == old(counters)[key].expires
    {
      if key in counters && (counters[key].expires.Some? ==> now < counters[key].expires.value) {
        counters := counters[key := counters[key].(count := counters[key].count + 1)];
      } else {
        counters := counters[key := Counter(1, None)];
      }
      count := counters[key].count;
      if count == 1 {
        counters := counters[key := Counter(1, Some(now + window))];
      }
    }

    /** Both windows count every call, also one that the other window refuses; a refused call
        blocks the address in all scenes. */
    method CheckAndIncrementIpLimits(scene: string, ip: string, minuteLimit: int, dayLimit: int, blockSeconds: nat, now: int)
        returns (admitted: bool)
      modifies this
      ensures Counted(old(counters), Minute(scene, ip), now, 60, counters) && Counted(old(counters), Day(scene, ip), now, 86400, counters)
      ensures admitted <==> counters[Minute(scene, ip)].count <= minuteLimit && counters[Day(scene, ip)].count <= dayLimit
      ensures forall key :: key in counters && key != Minute(scene, ip) && key != Day(scene, ip) ==>
                key in old(counters) && counters[key] == old(counters)[key]
      ensures blocked == if admitted then old(blocked) else old(blocked)[ip := now + blockSeconds]
    {
      var minuteCount := Count(Minute(scene, ip), 60, now);
      var dayCount := Count(Day(scene, ip), 24 * 60 * 60, now);
      if minuteCount > minuteLimit || dayCount > dayLimit {
        blocked := blocked[ip := now + blockSeconds];
        return false;
      }
      return true;
    }
  }

  /** With nobody in between, what a call leaves on the key of a window is an increment of the
      model and, for the creator, the expiry. */
  lemma {:induction false} CountIsSteps(cfg: Settings, s: State, admitted: bool, before: map<Key, Counter>, key: Key, after: map<Key, Counter>)
      returns (s1: State, s2: State)
    requires KeyInv(cfg, s) && !s.pending && s.key == if key in before then Some(before[key]) else None
    requires Counted(before, key, s.now, cfg.window, after) && (admitted ==> after[key].count <= cfg.limit)
    ensures Next(cfg, s, Incr(admitted), s1)
    ensures if s1.key.value.count == 1 then Next(cfg, s1, Expire, s2) else s2 == s1
    ensures s2.key == Some(after[key]) && !s2.pending
  {
    s1 := Incremented(s);
    s2 := if s1.key.value.count == 1
          then s1.(key := Some(s1.key.value.(expires := Some(s1.now + cfg.window))), pending := false) else s1;
  }
}
