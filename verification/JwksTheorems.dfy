/** What every interleaving of the three JWKS loaders and the guard's requests keeps. */
module JwksTheorems {
  import opened Wrappers
  import opened Jwks
  import opened Sets

  // ---------------------------------------------------------------- the cache

  /** What the load a step completes installs, if it completes one. */
  function Completed(importKey: Importer, step: Step): Option<KeyTable> {
    match step
    case LoopLoadEnds(f) => Loaded(importKey, f)
    case ReloadEnds(f) => Loaded(importKey, f)
    case _ => None
  }

  /** The table of the last successful load among the steps, or `before` without one. */
  function LastLoaded(importKey: Importer, steps: seq<Step>, before: Option<KeyTable>): Option<KeyTable>
    decreases |steps|
  {
    if steps == [] then before
    else
      var now := Completed(importKey, steps[0]);
      LastLoaded(importKey, steps[1..], if now.Some? then now else before)
  }

  /** The cache is this table, or empty. */
  predicate Caches(f: Fields, t: Option<KeyTable>) {
    match t
    case None => f.keyMap == NO_KEYS && f.primaryPem == None
    case Some(t) => f.keyMap == t && f.primaryPem == Primary(t) && f.primaryPem.Some?
  }

  lemma LoadedHasPrimary(importKey: Importer, f: Fetched)
    requires Loaded(importKey, f).Some?
    ensures Primary(Loaded(importKey, f).value).Some?
  {
    TableConsistent(importKey, f.keys);
    var t := TableOf(importKey, f.keys);
    assert t.order[0] in t.order;
  }

  lemma StepCaches(importKey: Importer, s: State, step: Step, before: Option<KeyTable>)
    requires Enabled(s, step) && Caches(s.fields, before)
    ensures var now := Completed(importKey, step);
            Caches(Apply(importKey, s, step).fields, if now.Some? then now else before)
  {
    if step.LoopLoadEnds? && Completed(importKey, step).Some? {
      LoadedHasPrimary(importKey, step.fetched);
    }
    if step.ReloadEnds? && Completed(importKey, step).Some? {
      LoadedHasPrimary(importKey, step.fetched);
    }
  }

  lemma {:induction false} RunCaches(importKey: Importer, s: State, steps: seq<Step>, before: Option<KeyTable>)
    requires Valid(importKey, s, steps) && Caches(s.fields, before)
    ensures Caches(After(importKey, s, steps).fields, LastLoaded(importKey, steps, before))
    decreases |steps|
  {
    if steps != [] {
      StepCaches(importKey, s, steps[0], before);
      var now := Completed(importKey, steps[0]);
      RunCaches(importKey, Apply(importKey, s, steps[0]), steps[1..], if now.Some? then now else before);
    }
  }

  /**
   Whatever the interleaving, keyMap and primaryPem are those of the load that last completed
   successfully; failed loads leave no trace; and the table is empty exactly while not ready.
   */
  lemma CacheIsLastSuccessfulLoad(importKey: Importer, start: int, steps: seq<Step>)
    requires Valid(importKey, Initial(start), steps)
    ensures var f := After(importKey, Initial(start), steps).fields;
            && Caches(f, LastLoaded(importKey, steps, None))
            && (IsReady(f) <==> f.keyMap.pems != map[])
            && (IsReady(f) <==> LastLoaded(importKey, steps, None).Some?)
  {
    RunCaches(importKey, Initial(start), steps, None);
    var f := After(importKey, Initial(start), steps).fields;
    if f.primaryPem.Some? {
      assert f.keyMap.order[0] in f.keyMap.pems;
    }
  }

  /** Readiness never reverts. */
  lemma {:induction false} StaysReady(importKey: Importer, s: State, steps: seq<Step>)
    requires Valid(importKey, s, steps) && IsReady(s.fields)
    ensures IsReady(After(importKey, s, steps).fields)
    decreases |steps|
  {
    if steps != [] {
      var step := steps[0];
      if step.LoopLoadEnds? && Completed(importKey, step).Some? {
        LoadedHasPrimary(importKey, step.fetched);
      }
      if step.ReloadEnds? && Completed(importKey, step).Some? {
        LoadedHasPrimary(importKey, step.fetched);
      }
      StaysReady(importKey, Apply(importKey, s, step), steps[1..]);
    }
  }

  /** The document whose load completed last with success. */
  function LastDocument(importKey: Importer, steps: seq<Step>, before: seq<Jwk>): seq<Jwk>
    decreases |steps|
  {
    if steps == [] then before
    else if Completed(importKey, steps[0]).Some? then LastDocument(importKey, steps[1..], steps[0].fetched.keys)
    else LastDocument(importKey, steps[1..], before)
  }

  lemma {:induction false} LastLoadedIsOfDocument(importKey: Importer, steps: seq<Step>, keys: seq<Jwk>, before: Option<KeyTable>)
    requires before == if TableOf(importKey, keys).order != [] then Some(TableOf(importKey, keys)) else None
    ensures var t := TableOf(importKey, LastDocument(importKey, steps, keys));
            LastLoaded(importKey, steps, before) == if t.order != [] then Some(t) else None
    decreases |steps|
  {
    if steps != [] {
      var now := Completed(importKey, steps[0]);
      if now.Some? {
        LastLoadedIsOfDocument(importKey, steps[1..], steps[0].fetched.keys, now);
      } else {
        LastLoadedIsOfDocument(importKey, steps[1..], keys, before);
      }
    }
  }

  /**
   The key the guard verifies a token with, after any run: for a token naming a kid, the last importable
   eligible key with that kid in the last successfully loaded document, and none if there is none; for a
   token without one, the key stored under the kid of that document's first importable eligible key.
   */
  lemma GuardKey(importKey: Importer, start: int, steps: seq<Step>, kid: Option<string>)
    requires Valid(importKey, Initial(start), steps)
    ensures var keys := LastDocument(importKey, steps, []);
            var key := GetPublicKeyPem(After(importKey, Initial(start), steps).fields, kid);
            && (kid.Some? ==>
                  && (key.Some? <==> exists i: nat :: LastWith(importKey, keys, kid.value, i))
                  && forall i: nat | LastWith(importKey, keys, kid.value, i) :: key == importKey(keys[i]))
            && (kid.None? ==>
                  && (key.Some? <==> exists i: nat :: FirstUsable(importKey, keys, i))
                  && forall i: nat, j: nat | FirstUsable(importKey, keys, i) && LastWith(importKey, keys, KidOf(keys[i]), j) ::
                       key == importKey(keys[j]))
  {
    var keys := LastDocument(importKey, steps, []);
    RunCaches(importKey, Initial(start), steps, None);
    LastLoadedIsOfDocument(importKey, steps, [], None);
    TableConsistent(importKey, keys);
    FirstInserted(importKey, keys);
    var t := TableOf(importKey, keys);
    if t.order == [] {
      assert forall k :: k !in t.pems;
    } else {
      assert t.order[0] in t.order;
      KidMapsToLast(importKey, keys, t.order[0]);
    }
    if kid.Some? {
      KidMapsToLast(importKey, keys, kid.value);
    }
  }

  // ---------------------------------------------------------------- the throttle

  /** Consecutive starts are at least one debounce window apart. */
  predicate Spaced(starts: seq<int>) {
    forall i :: 0 < i < |starts| ==> starts[i] - starts[i - 1] >= RELOAD_DEBOUNCE_MS
  }

  predicate StartedBy(starts: seq<int>, time: int) {
    starts == [] || starts[|starts| - 1] <= time
  }

  /** Before destroy: promise and timer exclude each other, and a new start is a window after the last. */
  predicate ThrottleInv(s: State) {
    && Spaced(s.reloadStarts)
    && StartedBy(s.reloadStarts, s.clock)
    && (s.fields.reloadPromise <==> !s.reload.Idle?)
    && !(s.fields.reloadPromise && s.fields.reloadDebounceTimer.Some?)
    && (s.fields.reloadDebounceTimer.Some? ==>
          StartedBy(s.reloadStarts, s.fields.reloadDebounceTimer.value - RELOAD_DEBOUNCE_MS))
    && (ReloadStarts(s.fields) ==> StartedBy(s.reloadStarts, s.clock - RELOAD_DEBOUNCE_MS))
  }

  lemma {:induction false} ThrottleKept(importKey: Importer, s: State, steps: seq<Step>)
    requires Valid(importKey, s, steps) && ThrottleInv(s) && Destroy !in steps
    ensures ThrottleInv(After(importKey, s, steps))
    decreases |steps|
  {
    if steps != [] {
      assert steps[0] in steps;
      ThrottleKeptByStep(importKey, s, steps[0]);
      ThrottleKept(importKey, Apply(importKey, s, steps[0]), steps[1..]);
    }
  }

  lemma ThrottleKeptByStep(importKey: Importer, s: State, step: Step)
    requires Enabled(s, step) && ThrottleInv(s) && !step.Destroy?
    ensures ThrottleInv(Apply(importKey, s, step))
  {
    if step.Request? {
      RequestKeepsThrottle(s, step.kid);
    } else if step.LoopLoadEnds? {
      LoopLoadKeepsThrottle(importKey, s, step.fetched);
    }
  }

  lemma RequestKeepsThrottle(s: State, kid: Option<string>)
    requires ThrottleInv(s)
    ensures ThrottleInv(RequestStep(s, kid))
  {
  }

  lemma LoopLoadKeepsThrottle(importKey: Importer, s: State, f: Fetched)
    requires ThrottleInv(s) && (s.loop.Loading? || s.loop.BackgroundLoading?)
    ensures ThrottleInv(LoopLoadStep(importKey, s, f))
  {
  }

  /** The reload starts in [from, from + width]. */
  function StartsWithin(starts: seq<int>, from: int, width: nat): set<nat> {
    set i: nat | i < |starts| && from <= starts[i] <= from + width
  }

  lemma {:induction false} FarApart(starts: seq<int>, i: nat, j: nat)
    requires Spaced(starts) && i <= j < |starts|
    ensures starts[j] - starts[i] >= RELOAD_DEBOUNCE_MS * (j - i)
    decreases j - i
  {
    if i < j {
      FarApart(starts, i, j - 1);
    }
  }

  /** Indices that pairwise differ by at most n number at most n + 1. */
  lemma {:induction false} FewWithin(indices: set<nat>, low: nat, n: nat)
    requires forall i <- indices :: low <= i <= low + n
    ensures |indices| <= n + 1
    decreases n
  {
    var rest := indices - {low + n};
    if n == 0 {
      assert indices <= {low};
      SubsetSize(indices, {low});
    } else {
      FewWithin(rest, low, n - 1);
      SubsetSize(indices, rest + {low + n});
    }
  }

  /**
   As long as the module is not destroyed, an in-flight reload and a running debounce timer never coexist,
   and any window of `width` ms holds at most width / 5000 + 1 reload starts, whatever requests arrive.
   */
  lemma ReloadThrottle(importKey: Importer, start: int, steps: seq<Step>, from: int, width: nat)
    requires Valid(importKey, Initial(start), steps) && Destroy !in steps
    ensures var s := After(importKey, Initial(start), steps);
            && !(s.fields.reloadPromise && s.fields.reloadDebounceTimer.Some?)
            && |StartsWithin(s.reloadStarts, from, width)| <= width / 5000 + 1
  {
    ThrottleKept(importKey, Initial(start), steps);
    var starts := After(importKey, Initial(start), steps).reloadStarts;
    var window := StartsWithin(starts, from, width);
    if window != {} {
      var low := Earliest(window);
      forall i <- window ensures low <= i <= low + width / RELOAD_DEBOUNCE_MS {
        FarApart(starts, low, i);
      }
      FewWithin(window, low, width / RELOAD_DEBOUNCE_MS);
    }
  }

  lemma {:induction false} Earliest(indices: set<nat>) returns (low: nat)
    requires indices != {}
    ensures low in indices && forall i <- indices :: low <= i
    decreases |indices|
  {
    low :| low in indices;
    if indices != {low} {
      var rest := Earliest(indices - {low});
      assert forall i <- indices :: i == low || i in indices - {low};
      low := if low <= rest then low else rest;
    }
  }

  lemma {:induction false} Append(importKey: Importer, s: State, steps: seq<Step>, step: Step)
    requires Valid(importKey, s, steps) && Enabled(After(importKey, s, steps), step)
    ensures Valid(importKey, s, steps + [step])
    ensures After(importKey, s, steps + [step]) == Apply(importKey, After(importKey, s, steps), step)
    decreases |steps|
  {
    if steps == [] {
      var s' := Apply(importKey, s, step);
      assert [] + [step] == [step] && [step][1..] == [];
      assert Valid(importKey, s', []) && After(importKey, s', []) == s';
    } else {
      assert (steps + [step])[0] == steps[0] && (steps + [step])[1..] == steps[1..] + [step];
      Append(importKey, Apply(importKey, s, steps[0]), steps[1..], step);
    }
  }

  /** Nothing is loaded, the first load of the startup loop is in flight, and the reload is free. */
  predicate Fresh(s: State) {
    s.fields == FRESH_FIELDS && s.loop == Loading(1, 2000) && s.reload.Idle?
  }

  /** A request for an unknown kid whose reload fails at once, and 5000 ms. */
  lemma ReloadAgain(importKey: Importer, s0: State, past: seq<Step>) returns (steps: seq<Step>)
    requires Valid(importKey, s0, past) && Fresh(After(importKey, s0, past))
    ensures Valid(importKey, s0, steps) && Fresh(After(importKey, s0, steps))
    ensures var s, s' := After(importKey, s0, past), After(importKey, s0, steps);
            s'.clock == s.clock + 5000 && s'.reloadStarts == s.reloadStarts + [s.clock]
    ensures Destroy !in steps <==> Destroy !in past
  {
    steps := past;
    Append(importKey, s0, steps, Request(Some("unknown")));
    steps := steps + [Request(Some("unknown"))];
    Append(importKey, s0, steps, ReloadEnds(NoResponse));
    steps := steps + [ReloadEnds(NoResponse)];
    Append(importKey, s0, steps, ReloadSettles);
    steps := steps + [ReloadSettles];
    Append(importKey, s0, steps, TimePasses(5000));
    steps := steps + [TimePasses(5000)];
    Append(importKey, s0, steps, DebounceTimerFires);
    steps := steps + [DebounceTimerFires];
  }

  /** The throttle bound is attained: for every n some run has n reload starts, 5000 ms apart. */
  lemma {:induction false} ThrottleAttained(importKey: Importer, start: int, n: nat) returns (steps: seq<Step>)
    ensures Valid(importKey, Initial(start), steps) && Destroy !in steps && Fresh(After(importKey, Initial(start), steps))
    ensures var s := After(importKey, Initial(start), steps);
            && s.clock == start + 5000 * n && |s.reloadStarts| == n
            && forall i :: 0 <= i < n ==> s.reloadStarts[i] == start + 5000 * i
  {
    if n == 0 {
      steps := [];
    } else {
      var past := ThrottleAttained(importKey, start, n - 1);
      steps := ReloadAgain(importKey, Initial(start), past);
    }
  }

  /** A request starts a reload exactly for a kid that is named and unknown, with no reload in flight and no debounce. */
  lemma RequestExactly(s: State, kid: Option<string>)
    ensures var s' := RequestStep(s, kid);
            if kid.Some? && kid.value !in s.fields.keyMap.pems && !s.fields.reloadPromise && s.fields.reloadDebounceTimer.None? then
              s' == s.(fields := s.fields.(reloadPromise := true), reload := Fetching, reloadStarts := s.reloadStarts + [s.clock])
            else s' == s
  {
  }

  // ---------------------------------------------------------------- startup budget and quiescence

  /** Attempts, loads and sleeps of the startup loop advance together. */
  predicate BudgetInv(s: State) {
    match s.loop
    case Loading(attempt, delay) =>
      1 <= attempt <= BACKOFF_MAX_ATTEMPTS && s.startupLoads == attempt && Budget(attempt, delay, s.startupSlept)
    case Sleeping(attempt, delay) =>
      1 <= attempt < BACKOFF_MAX_ATTEMPTS && s.startupLoads == attempt && Budget(attempt, delay, s.startupSlept - delay)
    case Woken(attempt, delay) =>
      1 <= attempt < BACKOFF_MAX_ATTEMPTS && s.startupLoads == attempt && Budget(attempt, delay, s.startupSlept - delay)
    case _ => s.startupLoads <= BACKOFF_MAX_ATTEMPTS && s.startupSlept <= 6000
  }

  predicate Budget(attempt: nat, delay: nat, slept: int) {
    || (attempt == 1 && delay == 2000 && slept == 0)
    || (attempt == 2 && delay == 4000 && slept == 2000)
    || (attempt == 3 && delay == 8000 && slept == 6000)
  }

  lemma {:induction false} BudgetKept(importKey: Importer, s: State, steps: seq<Step>)
    requires Valid(importKey, s, steps) && BudgetInv(s)
    ensures BudgetInv(After(importKey, s, steps))
    decreases |steps|
  {
    if steps != [] {
      BudgetKept(importKey, Apply(importKey, s, steps[0]), steps[1..]);
    }
  }

  /** Startup makes at most three loads and sleeps at most 2000 + 4000 ms in total. */
  lemma StartupBudget(importKey: Importer, start: int, steps: seq<Step>)
    requires Valid(importKey, Initial(start), steps)
    ensures var s := After(importKey, Initial(start), steps);
            s.startupLoads <= 3 && s.startupSlept <= 2000 + 4000
  {
    BudgetKept(importKey, Initial(start), steps);
  }

  /**
   The startup budget is attained: three failing loads, with sleeps of exactly 2000 and 4000 ms, then a
   background sleep of 30000 ms.
   */
  lemma StartupAttained(importKey: Importer, start: int) returns (steps: seq<Step>)
    ensures Valid(importKey, Initial(start), steps)
    ensures var s := After(importKey, Initial(start), steps);
            && s.startupLoads == 3 && s.startupSlept == 6000 && s.clock == start + 6000 && s.loopLoads == 3
            && s.loop == BackgroundSleeping && s.fields == FRESH_FIELDS.(pendingTimer := Some(start + 36000))
  {
    var s0 := Initial(start);
    steps := [];
    steps := FailAndSleep(importKey, s0, steps, 1, 2000);
    steps := FailAndSleep(importKey, s0, steps, 2, 4000);
    Append(importKey, s0, steps, LoopLoadEnds(NoResponse));
    steps := steps + [LoopLoadEnds(NoResponse)];
  }

  lemma FailAndSleep(importKey: Importer, s0: State, past: seq<Step>, attempt: nat, delay: nat) returns (steps: seq<Step>)
    requires Valid(importKey, s0, past) && 1 <= attempt <= 2
    requires After(importKey, s0, past).loop == Loading(attempt, delay) && After(importKey, s0, past).fields == FRESH_FIELDS
    ensures Valid(importKey, s0, steps)
    ensures var s := After(importKey, s0, past);
            After(importKey, s0, steps) == s.(loop := Loading(attempt + 1, delay * 2), clock := s.clock + delay,
                                              loopLoads := s.loopLoads + 1, startupLoads := s.startupLoads + 1,
                                              startupSlept := s.startupSlept + delay)
  {
    steps := past;
    Append(importKey, s0, steps, LoopLoadEnds(NoResponse));
    steps := steps + [LoopLoadEnds(NoResponse)];
    Append(importKey, s0, steps, TimePasses(delay));
    steps := steps + [TimePasses(delay)];
    Append(importKey, s0, steps, SleepTimerFires);
    steps := steps + [SleepTimerFires];
    Append(importKey, s0, steps, LoopResumes);
    steps := steps + [LoopResumes];
  }

  /** While the module is not ready and not destroyed, the background loop loads again 30000 ms after a failure. */
  lemma BackgroundLoadsAgain(importKey: Importer, s: State, f: Fetched)
    requires s.loop == BackgroundLoading && !s.fields.destroyed && !IsReady(s.fields) && Loaded(importKey, f).None?
    ensures var s1 := Apply(importKey, s, LoopLoadEnds(f));
            && s1.loop == BackgroundSleeping && s1.fields.pendingTimer == Some(s.clock + 30000)
            && var steps := [TimePasses(30000), SleepTimerFires, LoopResumes];
               && Valid(importKey, s1, steps)
               && After(importKey, s1, steps) == s.(clock := s.clock + 30000, loopLoads := s.loopLoads + 1,
                                                    fields := s.fields.(pendingTimer := None))
  {
    var s1 := Apply(importKey, s, LoopLoadEnds(f));
    Append(importKey, s1, [], TimePasses(30000));
    Append(importKey, s1, [TimePasses(30000)], SleepTimerFires);
    Append(importKey, s1, [TimePasses(30000), SleepTimerFires], LoopResumes);
    assert [] + [TimePasses(30000)] == [TimePasses(30000)];
    assert [TimePasses(30000)] + [SleepTimerFires] == [TimePasses(30000), SleepTimerFires];
    assert [TimePasses(30000), SleepTimerFires] + [LoopResumes] == [TimePasses(30000), SleepTimerFires, LoopResumes];
  }

  /** A load that succeeds ends either loop, ready with the document's table. */
  lemma SuccessEndsLoop(importKey: Importer, s: State, f: Fetched)
    requires s.loop.Loading? || s.loop.BackgroundLoading?
    requires Loaded(importKey, f).Some?
    ensures var s' := Apply(importKey, s, LoopLoadEnds(f));
            s'.loop == Stopped && IsReady(s'.fields) && s'.fields.keyMap == Loaded(importKey, f).value
  {
    LoadedHasPrimary(importKey, f);
  }

  /** Destroying stops both timers, leaves the cache, and stops the loop at its next turn. */
  lemma DestroyedExactly(importKey: Importer, s: State)
    ensures Apply(importKey, s, Destroy) == s.(fields := s.fields.(destroyed := true, pendingTimer := None, reloadDebounceTimer := None))
  {
  }

  /** From any state whatever, once destroyed, neither loop ever begins another load. */
  lemma {:induction false} QuiescentAfterDestroy(importKey: Importer, s: State, steps: seq<Step>)
    requires Valid(importKey, s, steps) && s.fields.destroyed
    ensures var s' := After(importKey, s, steps);
            s'.fields.destroyed && s'.loopLoads == s.loopLoads && s'.startupLoads == s.startupLoads
    decreases |steps|
  {
    if steps != [] {
      QuiescentAfterDestroy(importKey, Apply(importKey, s, steps[0]), steps[1..]);
    }
  }

  /** Nor does either loop sleep any more: the timer that destroy cleared is never set again. */
  lemma {:induction false} NoSleepAfterDestroy(importKey: Importer, s: State, steps: seq<Step>)
    requires Valid(importKey, Apply(importKey, s, Destroy), steps)
    ensures After(importKey, Apply(importKey, s, Destroy), steps).fields.pendingTimer == None
  {
    StaysAwake(importKey, Apply(importKey, s, Destroy), steps);
  }

  lemma {:induction false} StaysAwake(importKey: Importer, s: State, steps: seq<Step>)
    requires Valid(importKey, s, steps) && s.fields.destroyed && s.fields.pendingTimer == None
    ensures After(importKey, s, steps).fields.pendingTimer == None
    decreases |steps|
  {
    if steps != [] {
      StaysAwake(importKey, Apply(importKey, s, steps[0]), steps[1..]);
    }
  }
}
