/** The least bound on what the fixed-window limiter admits in a span of one window's length, for
    every window and limit. */
module IpBounds {
  import opened Wrappers
  import opened Sequences
  import opened IpLimiter

  // ---- a run that uses both windows up ----------------------------------------------------------

  /** The key is created at 0; at the last moment of its window the limit is used up; at the first
      moment of the next one it is used up again. */
  function StateAt(cfg: Settings, i: nat): State
    requires cfg.window > 0 && cfg.limit > 0
  {
    if i == 0 then State(0, None, 0, 0, false)
    else if i == 1 then State(0, Some(Counter(1, None)), 1, 0, true)
    else if i == 2 then State(0, Some(Counter(1, Some(cfg.window))), 1, 0, false)
    else if i <= cfg.limit + 2 then State(cfg.window - 1, Some(Counter(i - 2, Some(cfg.window))), 1, 0, false)
    else if i == cfg.limit + 3 then State(cfg.window, Some(Counter(cfg.limit, Some(cfg.window))), 1, 0, false)
    else State(cfg.window, Some(Counter(i - cfg.limit - 3, None)), 2, cfg.window, true)
  }

  function ActionAt(cfg: Settings, i: nat): Action
    requires cfg.window > 0
  {
    if i == 1 then Expire
    else if i == 2 then Tick(cfg.window - 1)
    else if i == cfg.limit + 2 then Tick(cfg.window)
    else Incr(true)
  }

  function States(cfg: Settings): seq<State>
    requires cfg.window > 0 && cfg.limit > 0
  {
    seq(2 * cfg.limit + 4, i requires 0 <= i => StateAt(cfg, i))
  }

  function Actions(cfg: Settings): seq<Action>
    requires cfg.window > 0
  {
    seq(2 * cfg.limit + 3, i requires 0 <= i => ActionAt(cfg, i))
  }

  lemma {:induction false} StepAt(cfg: Settings, i: nat)
    requires cfg.window > 0 && cfg.limit > 0 && i < 2 * cfg.limit + 3
    ensures Next(cfg, StateAt(cfg, i), ActionAt(cfg, i), StateAt(cfg, i + 1))
  {
  }

  lemma {:induction false} IsRun(cfg: Settings)
    requires cfg.window > 0 && cfg.limit > 0
    ensures Run(cfg, States(cfg), Actions(cfg))
  {
    forall i | 0 <= i < |Actions(cfg)|
      ensures Next(cfg, States(cfg)[i], Actions(cfg)[i], States(cfg)[i + 1])
    {
      StepAt(cfg, i);
    }
  }

  lemma {:induction false} SizeOfTwo(a: set<int>, lo: int, n: nat, lo': int, n': nat)
    requires lo + n <= lo' && forall i :: i in a <==> lo <= i < lo + n || lo' <= i < lo' + n'
    ensures |a| == n + n'
  {
    RangeSize(lo, n);
    RangeSize(lo', n');
    var first, second := Range(lo, n), Range(lo', n');
    hide Range;
    assert forall i :: i in first ==> i !in second;
    forall i: int
      ensures i in a <==> i in first + second
    {
    }
    assert a == first + second;
  }

  lemma {:induction false} AdmittedAt(cfg: Settings, from: int, to: int, i: nat)
    requires cfg.window > 0 && cfg.limit > 0 && i < 2 * cfg.limit + 3
    ensures i in AdmittedIn(States(cfg), Actions(cfg), from, to)
       <==> i != 1 && i != 2 && i != cfg.limit + 2
            && from <= (if i == 0 then 0 else if i < cfg.limit + 2 then cfg.window - 1 else cfg.window) < to
  {
  }

  /** The bounds are reached for every limit and window: twice the limit from the creation of the
      key on, ends included, and one less in the half-open span from its last moment on. */
  lemma {:induction false} BoundIsReached(cfg: Settings)
    requires cfg.window > 0 && cfg.limit > 0
    ensures Run(cfg, States(cfg), Actions(cfg))
    ensures |AdmittedIn(States(cfg), Actions(cfg), 0, cfg.window + 1)| == 2 * cfg.limit
    ensures cfg.window > 1 ==>
              |AdmittedIn(States(cfg), Actions(cfg), cfg.window - 1, 2 * cfg.window - 1)| == 2 * cfg.limit - 1
    ensures cfg.window == 1 ==> |AdmittedIn(States(cfg), Actions(cfg), 0, 1)| == cfg.limit
  {
    IsRun(cfg);
    hide States, Actions;
    var states, actions, n, m := States(cfg), Actions(cfg), cfg.window, cfg.limit;
    var all, late, early := AdmittedIn(states, actions, 0, n + 1), AdmittedIn(states, actions, n - 1, 2 * n - 1), AdmittedIn(states, actions, 0, 1);
    assert |actions| == 2 * m + 3 by { Lengths(cfg); }
    forall i: int
      ensures i in all - {0} <==> 3 <= i < m + 2 || m + 3 <= i < 2 * m + 3
      ensures n > 1 ==> (i in late <==> 3 <= i < m + 2 || m + 3 <= i < 2 * m + 3)
      ensures n == 1 ==> (i in early - {0} <==> 3 <= i < m + 2)
    {
      if 0 <= i < 2 * m + 3 {
        AdmittedAt(cfg, 0, n + 1, i);
        AdmittedAt(cfg, n - 1, 2 * n - 1, i);
        AdmittedAt(cfg, 0, 1, i);
      }
    }
    AdmittedAt(cfg, 0, n + 1, 0);
    AdmittedAt(cfg, 0, 1, 0);
    SizeOfTwo(all - {0}, 3, m - 1, m + 3, m);
    if n > 1 {
      SizeOfTwo(late, 3, m - 1, m + 3, m);
    } else {
      SizeOfTwo(early - {0}, 3, m - 1, m + 3, 0);
    }
  }

  lemma {:induction false} Lengths(cfg: Settings)
    requires cfg.window > 0 && cfg.limit > 0
    ensures |States(cfg)| == 2 * cfg.limit + 4 && |Actions(cfg)| == 2 * cfg.limit + 3
  {
  }

  // ---- the least bounds ------------------------------------------------------------------------------

  predicate Within(states: seq<State>, actions: seq<Action>, from: int, length: int, bound: int) {
    |AdmittedIn(states, actions, from, from + length)| <= bound
  }

  /** No more than `bound` calls go through in any span of this length, in any run. */
  ghost predicate Bounds(cfg: Settings, length: int, bound: int) {
    forall states, actions, from :: Run(cfg, states, actions) ==> Within(states, actions, from, length, bound)
  }

  lemma {:induction false} BoundsAreNatural(cfg: Settings, length: int, bound: int)
    requires Bounds(cfg, length, bound)
    ensures bound >= 0
  {
    var states: seq<State> := [State(0, None, 0, 0, false)];
    assert Run(cfg, states, []);
    assert Within(states, [], 0, length, bound);
  }

  /** The least bound on any span of one window, both ends included. */
  lemma {:induction false} ClosedSpanIff(cfg: Settings, bound: int)
    requires cfg.window > 0
    ensures Bounds(cfg, cfg.window + 1, bound) <==> 2 * cfg.limit <= bound
  {
    hide Run, AdmittedIn;
    if Bounds(cfg, cfg.window + 1, bound) {
      BoundsAreNatural(cfg, cfg.window + 1, bound);
      if cfg.limit > 0 {
        BoundIsReached(cfg);
        assert Within(States(cfg), Actions(cfg), 0, cfg.window + 1, bound);
      }
    }
    if 2 * cfg.limit <= bound {
      var length := cfg.window + 1;
      forall states, actions, from: int | Run(cfg, states, actions)
        ensures Within(states, actions, from, length, bound)
      {
        AtMostTwice(cfg, states, actions, from);
        assert from + cfg.window + 1 == from + length;
      }
    }
  }

  /** Calls of one instant are of one generation of the key. */
  lemma {:induction false} OneInstant(cfg: Settings, states: seq<State>, actions: seq<Action>, from: int)
    requires Run(cfg, states, actions) && cfg.window == 1
    ensures |AdmittedIn(states, actions, from, from + 1)| <= cfg.limit
  {
    var calls := AdmittedIn(states, actions, from, from + 1);
    if q :| q in calls {
      var p := FirstAdmitted(states, actions, from, from + 1, q);
      var places := PlacesOfSpan(cfg, states, actions, from, from + 1, p);
      forall i: int | i in places
        ensures places[i] <= cfg.limit
      {
        CallCounts(cfg, states, actions, i);
        CallCounts(cfg, states, actions, p);
        if p < i { SameInstant(cfg, states, actions, p, i); }
      }
      PlacesBound(places, 1, cfg.limit);
    }
  }

  lemma {:induction false} SameInstant(cfg: Settings, states: seq<State>, actions: seq<Action>, i: nat, j: nat)
    requires Run(cfg, states, actions) && i < j < |actions| && actions[i].Incr? && actions[j].Incr? && cfg.window > 0
    requires states[i].now == states[j].now
    ensures states[i + 1].generation == states[j + 1].generation
  {
    AfterCall(cfg, states, actions, i, j + 1);
    AlwaysKey(cfg, states, actions, j + 1);
    assert Next(cfg, states[i], actions[i], states[i + 1]) && Next(cfg, states[j], actions[j], states[j + 1]);
  }

  /** What a half-open span of one window can admit: a window of one time unit sees one generation. */
  function Most(cfg: Settings): nat {
    if cfg.limit == 0 then 0 else if cfg.window == 1 then cfg.limit else 2 * cfg.limit - 1
  }

  lemma {:induction false} NothingAdmitted(cfg: Settings, states: seq<State>, actions: seq<Action>, from: int, to: int)
    requires Run(cfg, states, actions) && cfg.limit == 0
    ensures AdmittedIn(states, actions, from, to) == {}
  {
    forall i: int | i in AdmittedIn(states, actions, from, to)
      ensures false
    {
      CallCounts(cfg, states, actions, i);
    }
  }

  /** The least bound on any half-open span of one window. */
  lemma {:induction false} HalfOpenSpanIff(cfg: Settings, bound: int)
    requires cfg.window > 0
    ensures Bounds(cfg, cfg.window, bound) <==> Most(cfg) <= bound
  {
    hide Run, AdmittedIn;
    if Bounds(cfg, cfg.window, bound) {
      BoundsAreNatural(cfg, cfg.window, bound);
      if cfg.limit > 0 {
        BoundIsReached(cfg);
        assert Within(States(cfg), Actions(cfg), cfg.window - 1, cfg.window, bound);
        assert cfg.window - 1 + cfg.window == 2 * cfg.window - 1;
      }
    }
    if Most(cfg) <= bound {
      forall states, actions, from: int | Run(cfg, states, actions)
        ensures Within(states, actions, from, cfg.window, bound)
      {
        if cfg.limit == 0 {
          NothingAdmitted(cfg, states, actions, from, from + cfg.window);
        } else if cfg.window == 1 {
          OneInstant(cfg, states, actions, from);
        } else {
          BelowTwice(cfg, states, actions, from);
        }
      }
    }
  }

  /** The two windows of the service, 60 seconds and 24 hours: nothing below twice the limit
      bounds what one of them lets through in its length. */
  lemma {:induction false} ServiceWindows(minuteLimit: nat, dayLimit: nat, bound: int)
    ensures Bounds(Settings(60, minuteLimit), 61, bound) <==> 2 * minuteLimit <= bound
    ensures Bounds(Settings(86400, dayLimit), 86401, bound) <==> 2 * dayLimit <= bound
  {
    ClosedSpanIff(Settings(60, minuteLimit), bound);
    ClosedSpanIff(Settings(86400, dayLimit), bound);
  }
}
