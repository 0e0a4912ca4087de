/**
 `JwksService` as an object: its fields, and the methods that update them, each proved against the functions
 the step machine in Jwks uses; the startup loop, with the other loaders and the guard running at each of its
 awaits, is proved to be a run of that machine.  Clock readings and fetch answers are parameters.
 */
module JwksService {
  import opened Wrappers
  import opened Jwks
  import JwksTheorems

  /** Steps that are not the startup loop's own. */
  predicate OfOthers(step: Step) {
    step.TimePasses? || step.Request? || step.ReloadEnds? || step.ReloadSettles? || step.DebounceTimerFires? || step.Destroy?
  }

  /** What runs while the startup loop awaits something: any steps of others that can be taken then. */
  type World = (nat, State) -> seq<Step>

  ghost predicate Fair(importKey: Importer, world: World) {
    forall n: nat, s: State :: Valid(importKey, s, world(n, s)) && forall step <- world(n, s) :: OfOthers(step)
  }

  /** Others leave the loop alone, and clear its timer only by destroying the module. */
  predicate LoopKept(s: State, s': State) {
    && s'.loop == s.loop && s'.loopLoads == s.loopLoads && s'.startupLoads == s.startupLoads
    && s'.startupSlept == s.startupSlept && s.clock <= s'.clock
    && (s.fields.destroyed ==> s'.fields.destroyed)
    && (!s'.fields.destroyed ==> s'.fields.pendingTimer == s.fields.pendingTimer)
    && (s'.fields.destroyed && (!s.fields.destroyed || s.fields.pendingTimer == None) ==> s'.fields.pendingTimer == None)
    && (IsReady(s.fields) ==> IsReady(s'.fields))
  }

  lemma OtherStepKeeps(importKey: Importer, s: State, step: Step)
    requires Enabled(s, step) && OfOthers(step)
    ensures LoopKept(s, Apply(importKey, s, step))
  {
    if step.ReloadEnds? && Loaded(importKey, step.fetched).Some? {
      JwksTheorems.LoadedHasPrimary(importKey, step.fetched);
    }
  }

  lemma {:induction false} OthersKeepLoop(importKey: Importer, s: State, steps: seq<Step>)
    requires Valid(importKey, s, steps) && forall step <- steps :: OfOthers(step)
    ensures LoopKept(s, After(importKey, s, steps))
    decreases |steps|
  {
    if steps != [] {
      assert steps[0] in steps;
      OtherStepKeeps(importKey, s, steps[0]);
      OthersKeepLoop(importKey, Apply(importKey, s, steps[0]), steps[1..]);
    }
  }

  /** Steps lead from one state of the machine to another. */
  predicate LeadsTo(importKey: Importer, s: State, steps: seq<Step>, s': State) {
    Valid(importKey, s, steps) && After(importKey, s, steps) == s'
  }

  lemma {:induction false} Join(importKey: Importer, s: State, a: seq<Step>, s1: State, b: seq<Step>, s2: State)
    requires LeadsTo(importKey, s, a, s1) && LeadsTo(importKey, s1, b, s2)
    ensures LeadsTo(importKey, s, a + b, s2)
    decreases |a|
  {
    if a == [] {
      assert a + b == b;
    } else {
      assert (a + b)[0] == a[0] && (a + b)[1..] == a[1..] + b;
      Join(importKey, Apply(importKey, s, a[0]), a[1..], s1, b, s2);
    }
  }

  lemma OneStep(importKey: Importer, s: State, step: Step)
    requires Enabled(s, step)
    ensures LeadsTo(importKey, s, [step], Apply(importKey, s, step))
  {
    var s' := Apply(importKey, s, step);
    assert [step][1..] == [];
    assert LeadsTo(importKey, s', [], s');
  }

  lemma Extend(importKey: Importer, s: State, steps: seq<Step>, s1: State, step: Step)
    requires LeadsTo(importKey, s, steps, s1) && Enabled(s1, step)
    ensures LeadsTo(importKey, s, steps + [step], Apply(importKey, s1, step))
  {
    OneStep(importKey, s1, step);
    Join(importKey, s, steps, s1, [step], Apply(importKey, s1, step));
  }

  class JwksService {
    const importKey: Importer
    var keyMap: KeyTable
    var primaryPem: Option<Pem>
    var reloadPromise: bool
    var reloadDebounceTimer: Option<int>
    var pendingTimer: Option<int>
    var destroyed: bool

    constructor (importKey: Importer)
      ensures this.importKey == importKey && View() == FRESH_FIELDS
    {
      this.importKey := importKey;
      keyMap, primaryPem := NO_KEYS, None;
      reloadPromise, reloadDebounceTimer := false, None;
      pendingTimer, destroyed := None, false;
    }

    function View(): Fields
      reads this
    {
      Fields(keyMap, primaryPem, reloadPromise, reloadDebounceTimer, pendingTimer, destroyed)
    }

    method OnModuleDestroy()
      modifies this
      ensures destroyed && pendingTimer == None && reloadDebounceTimer == None
      ensures keyMap == old(keyMap) && primaryPem == old(primaryPem) && reloadPromise == old(reloadPromise)
      ensures View() == AfterDestroy(old(View()))
    {
      destroyed := true;
      pendingTimer := None;
      if reloadDebounceTimer.Some? {
        reloadDebounceTimer := None;
      }
    }

    /** The import loop: later keys replace the value of their kid and keep its place. */
    method BuildTable(keys: seq<Jwk>) returns (newMap: KeyTable)
      ensures newMap == TableOf(importKey, keys)
    {
      newMap := NO_KEYS;
      for n := 0 to |keys|
        invariant newMap == TableOf(importKey, keys[..n])
      {
        assert keys[..n + 1][..n] == keys[..n];
        if Eligible(keys[n]) {
          var pem := importKey(keys[n]);
          if pem.Some? {
            newMap := SetKey(newMap, KidOf(keys[n]), pem.value);
          }
        }
      }
      assert keys[..|keys|] == keys;
    }

    /** Installs the document's table, or throws and changes nothing. */
    method LoadPublicKey(fetched: Fetched) returns (threw: bool)
      modifies this
      ensures !threw <==> fetched.Document? && exists k <- fetched.keys :: IsUsableKey(importKey, k)
      ensures threw ==> View() == old(View())
      ensures !threw ==>
                && (forall kid, i: nat | LastWith(importKey, fetched.keys, kid, i) ::
                      kid in keyMap.pems && Some(keyMap.pems[kid]) == importKey(fetched.keys[i]))
                && (forall kid <- keyMap.pems :: exists i: nat :: LastWith(importKey, fetched.keys, kid, i))
                && (forall i: nat | FirstUsable(importKey, fetched.keys, i) ::
                      var kid := if fetched.keys[i].kid.Some? then fetched.keys[i].kid.value else "default";
                      kid in keyMap.pems && primaryPem == Some(keyMap.pems[kid]))
      ensures View() == old(View()).(keyMap := keyMap, primaryPem := primaryPem)
      ensures threw == Loaded(importKey, fetched).None?
      ensures View() == AfterLoad(old(View()), Loaded(importKey, fetched))
    {
      LoadedExactly(importKey, fetched);
      if !fetched.Document? {
        return true;
      }
      var newMap := BuildTable(fetched.keys);
      if newMap.order == [] {
        return true;
      }
      TableConsistent(importKey, fetched.keys);
      assert newMap.order[0] in newMap.order;
      keyMap := newMap;
      primaryPem := Some(newMap.pems[newMap.order[0]]);
      InstalledExactly(importKey, fetched);
      return false;
    }

    method Sleep(now: int, ms: nat)
      modifies this
      ensures View() == old(View()).(pendingTimer := Some(now + ms))
      ensures View() == AfterSleep(old(View()), now, ms)
    {
      pendingTimer := Some(now + ms);
    }

    /** The loop awaits: the others run, on the same fields. */
    method Await(start: State, ghost past: seq<Step>, s: State, world: World, n: nat)
      returns (s': State, ghost steps: seq<Step>)
      requires Fair(importKey, world) && View() == s.fields && LeadsTo(importKey, start, past, s)
      modifies this
      ensures LeadsTo(importKey, start, steps, s') && View() == s'.fields && LoopKept(s, s')
    {
      var between := world(n, s);
      s', steps := After(importKey, s, between), past + between;
      OthersKeepLoop(importKey, s, between);
      Join(importKey, start, past, s, between, s');
      keyMap, primaryPem := s'.fields.keyMap, s'.fields.primaryPem;
      reloadPromise, reloadDebounceTimer := s'.fields.reloadPromise, s'.fields.reloadDebounceTimer;
      pendingTimer, destroyed := s'.fields.pendingTimer, s'.fields.destroyed;
    }

    /** What the machine does next. */
    method Advance(start: State, ghost past: seq<Step>, s: State, step: Step)
      returns (s': State, ghost steps: seq<Step>)
      requires LeadsTo(importKey, start, past, s) && Enabled(s, step)
      ensures LeadsTo(importKey, start, steps, s') && s' == Apply(importKey, s, step)
    {
      s', steps := Apply(importKey, s, step), past + [step];
      Extend(importKey, start, past, s, step);
    }

    /** One attempt: it ends the loop when it succeeds or the module was destroyed meanwhile. */
    method TryLoad(start: State, ghost past: seq<Step>, before: State, world: World, n: nat, fetched: Fetched)
      returns (s: State, ghost steps: seq<Step>, done: bool)
      requires Fair(importKey, world) && LeadsTo(importKey, start, past, before) && before.loop.Loading?
      requires View() == before.fields
      modifies this
      ensures LeadsTo(importKey, start, steps, s) && View() == s.fields
      ensures s.startupLoads == before.startupLoads && s.startupSlept == before.startupSlept
      ensures done ==> s.loop == Stopped && if Loaded(importKey, fetched).Some? then IsReady(s.fields) else s.fields.destroyed
      ensures !done ==> s.loop == before.loop && Loaded(importKey, fetched).None? && !s.fields.destroyed
    {
      s, steps := Await(start, past, before, world, n);
      var threw := LoadPublicKey(fetched);
      done := !threw || destroyed;
      if done {
        s, steps := Advance(start, steps, s, LoopLoadEnds(fetched));
        if !threw {
          JwksTheorems.LoadedHasPrimary(importKey, fetched);
        }
      }
    }

    /**
     `await this.sleep(delay)` after a failed load, up to the next load; a sleep whose timer destroy clears
     never ends.
     */
    method SleepBetween(
      start: State, ghost past: seq<Step>, before: State, world: World, n: nat, failed: Fetched, delay: nat)
      returns (s: State, ghost steps: seq<Step>, done: bool)
      requires Fair(importKey, world) && LeadsTo(importKey, start, past, before) && View() == before.fields
      requires before.loop.Loading? && before.loop.attempt < BACKOFF_MAX_ATTEMPTS && before.loop.delay == delay
      requires Loaded(importKey, failed).None? && !before.fields.destroyed
      modifies this
      ensures LeadsTo(importKey, start, steps, s) && View() == s.fields
      ensures s.startupSlept == before.startupSlept + delay
      ensures if done then
                && s.fields.destroyed && s.startupLoads == before.startupLoads
                && (s.loop.Stopped? || (s.loop.Sleeping? && s.fields.pendingTimer == None))
              else
                && s.loop == Loading(before.loop.attempt + 1, delay * 2) && !s.fields.destroyed
                && s.startupLoads == before.startupLoads + 1
    {
      Sleep(before.clock, delay);
      s, steps := Advance(start, past, before, LoopLoadEnds(failed));
      s, steps := Await(start, steps, s, world, n);
      if destroyed {
        return s, steps, true;
      }
      s, steps := WakeUp(start, steps, s);
      s, steps := Await(start, steps, s, world, n + 1);
      done := destroyed;
      s, steps := Advance(start, steps, s, LoopResumes);
    }

    /** Time passes until the timer of the sleep fires. */
    method WakeUp(start: State, ghost past: seq<Step>, before: State) returns (s: State, ghost steps: seq<Step>)
      requires LeadsTo(importKey, start, past, before) && View() == before.fields
      requires before.loop.Sleeping? && before.fields.pendingTimer.Some?
      modifies this
      ensures LeadsTo(importKey, start, steps, s) && View() == s.fields
      ensures s == before.(clock := s.clock, loop := Woken(before.loop.attempt, before.loop.delay),
                           fields := before.fields.(pendingTimer := None))
    {
      var wait := pendingTimer.value - before.clock;
      s, steps := Advance(start, past, before, TimePasses(if wait > 0 then wait else 0));
      s, steps := Advance(start, steps, s, SleepTimerFires);
      pendingTimer := None;
    }

    /** After three failed loads: the head of the background loop. */
    method ContinueBackgroundRetry(start: State, ghost past: seq<Step>, before: State, failed: Fetched)
      returns (s: State, ghost steps: seq<Step>)
      requires LeadsTo(importKey, start, past, before) && View() == before.fields
      requires before.loop.Loading? && before.loop.attempt == BACKOFF_MAX_ATTEMPTS
      requires Loaded(importKey, failed).None? && !before.fields.destroyed
      modifies this
      ensures LeadsTo(importKey, start, steps, s) && View() == s.fields
      ensures s.startupLoads == before.startupLoads && s.startupSlept == before.startupSlept
      ensures !s.fields.destroyed && s.loop == if IsReady(s.fields) then Stopped else BackgroundSleeping
      ensures s.loop.BackgroundSleeping? ==> pendingTimer == Some(before.clock + 30000)
    {
      if primaryPem.None? && !destroyed {
        Sleep(before.clock, BACKGROUND_RETRY_MS);
      }
      s, steps := Advance(start, past, before, LoopLoadEnds(failed));
    }

    /**
     The startup loop, with anything else going on at its awaits, takes the fields where a run of the
     machine takes them.  The loop loads exactly up to the first success; when it ends, the module is ready
     or destroyed, or its sleep was cleared by destroy, or three loads failed and the background loop sleeps.
     */
    method LoadPublicKeyWithRetry(start: State, world: World, fetched: nat -> Fetched)
      returns (s: State, ghost steps: seq<Step>)
      requires start.loop == Loading(1, BACKOFF_INITIAL_MS) && start.startupLoads == 1 && start.startupSlept == 0
      requires View() == start.fields && Fair(importKey, world)
      modifies this
      ensures LeadsTo(importKey, start, steps, s) && View() == s.fields
      ensures 1 <= s.startupLoads <= BACKOFF_MAX_ATTEMPTS && s.startupSlept <= 6000
      ensures forall k: nat :: 1 <= k < s.startupLoads ==> Loaded(importKey, fetched(k)).None?
      ensures match s.loop
              case Stopped => IsReady(s.fields) || s.fields.destroyed
              case Sleeping(_, _) => s.fields.destroyed && s.fields.pendingTimer == None
              case BackgroundSleeping => s.startupLoads == BACKOFF_MAX_ATTEMPTS && !IsReady(s.fields) && !s.fields.destroyed
              case _ => false
      ensures s.startupLoads < BACKOFF_MAX_ATTEMPTS && !s.fields.destroyed ==> Loaded(importKey, fetched(s.startupLoads)).Some?
      ensures Loaded(importKey, fetched(s.startupLoads)).Some? ==> s.loop.Stopped?
    {
      var delay := BACKOFF_INITIAL_MS;
      var attempt := 1;
      s, steps := start, [];
      while attempt <= BACKOFF_MAX_ATTEMPTS
        invariant 1 <= attempt <= BACKOFF_MAX_ATTEMPTS + 1
        invariant LeadsTo(importKey, start, steps, s) && View() == s.fields
        invariant forall k: nat :: 1 <= k < attempt ==> Loaded(importKey, fetched(k)).None?
        invariant var current := if attempt <= BACKOFF_MAX_ATTEMPTS then attempt else BACKOFF_MAX_ATTEMPTS;
                  && s.loop.Loading? && s.loop.attempt == s.startupLoads == current
                  && JwksTheorems.Budget(current, s.loop.delay, s.startupSlept)
        invariant attempt <= BACKOFF_MAX_ATTEMPTS ==> delay == s.loop.delay
        invariant attempt > BACKOFF_MAX_ATTEMPTS ==> !s.fields.destroyed
      {
        var done;
        s, steps, done := TryLoad(start, steps, s, world, 3 * attempt, fetched(attempt));
        if done {
          return;
        }
        if attempt < BACKOFF_MAX_ATTEMPTS {
          s, steps, done := SleepBetween(start, steps, s, world, 3 * attempt + 1, fetched(attempt), delay);
          delay := delay * 2;
          if done {
            return;
          }
        }
        attempt := attempt + 1;
      }
      s, steps := ContinueBackgroundRetry(start, steps, s, fetched(BACKOFF_MAX_ATTEMPTS));
    }

    method GetPublicKeyPem(kid: Option<string>) returns (pem: Option<Pem>)
      ensures kid.None? ==> pem == primaryPem
      ensures kid.Some? ==> pem == if kid.value in keyMap.pems then Some(keyMap.pems[kid.value]) else None
      ensures pem == Jwks.GetPublicKeyPem(View(), kid)
    {
      if kid.Some? {
        if kid.value in keyMap.pems {
          return Some(keyMap.pems[kid.value]);
        }
        return None;
      }
      return primaryPem;
    }

    /** Starts a reload unless one is in flight or one ended within the debounce window. */
    method ScheduleReloadForUnknownKid() returns (started: bool)
      modifies this
      ensures started <==> !old(reloadPromise) && old(reloadDebounceTimer).None?
      ensures started == ReloadStarts(old(View()))
      ensures View() == old(View()).(reloadPromise := old(reloadPromise) || started)
    {
      if reloadPromise {
        return false;
      }
      if reloadDebounceTimer.Some? {
        return false;
      }
      reloadPromise := true;
      return true;
    }

    /** The `finally` of the reload. */
    method ReloadFinally(now: int)
      modifies this
      ensures View() == old(View()).(reloadPromise := false, reloadDebounceTimer := Some(now + 5000))
      ensures View() == AfterReload(old(View()), now)
    {
      reloadPromise := false;
      reloadDebounceTimer := Some(now + RELOAD_DEBOUNCE_MS);
    }
  }

  class JwtAuthGuard {
    const jwks: JwksService

    constructor (jwks: JwksService)
      ensures this.jwks == jwks
    {
      this.jwks := jwks;
    }

    /**
     Key selection in `canActivate`: the key to verify with, or None for a rejection; a reload is asked
     for exactly when a named kid is unknown.
     */
    method SelectKey(kid: Option<string>) returns (key: Option<Pem>, reloadStarted: bool)
      modifies jwks
      ensures kid.None? ==> key == old(jwks.primaryPem)
      ensures kid.Some? ==>
                key == if kid.value in old(jwks.keyMap).pems then Some(old(jwks.keyMap).pems[kid.value]) else None
      ensures reloadStarted <==> kid.Some? && kid.value !in old(jwks.keyMap).pems
                                 && !old(jwks.reloadPromise) && old(jwks.reloadDebounceTimer).None?
      ensures jwks.View() == old(jwks.View()).(reloadPromise := old(jwks.reloadPromise) || reloadStarted)
    {
      key := jwks.GetPublicKeyPem(kid);
      reloadStarted := false;
      if key.None? && kid.Some? {
        reloadStarted := jwks.ScheduleReloadForUnknownKid();
      }
    }
  }
}
