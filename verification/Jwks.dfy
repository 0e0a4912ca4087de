/**
 `JwksService`: reading a JWKS document into the key table, and the step machine of its three loaders
 (startup retry, background loop, reload for an unknown kid) with the guard's requests in between.
 Importing a JWK is an arbitrary partial function; times are integer milliseconds.
 */
module Jwks {
  import opened Wrappers

  const RELOAD_DEBOUNCE_MS := 5000
  const BACKOFF_INITIAL_MS := 2000
  const BACKOFF_MAX_ATTEMPTS := 3
  const BACKGROUND_RETRY_MS := 30000

  // ---------------------------------------------------------------- documents and tables

  /** PEM text; never empty. */
  type Pem = s: string | s != "" witness "-"

  datatype Jwk = Jwk(
    kty: string, crv: Option<string>, use: Option<string>, alg: Option<string>,
    x: Option<string>, y: Option<string>, kid: Option<string>)

  type Importer = Jwk -> Option<Pem>

  /** A present, non-empty string. */
  predicate Truthy(s: Option<string>) {
    s.Some? && s.value != ""
  }

  predicate Eligible(k: Jwk) {
    && k.kty == "EC" && k.crv == Some("P-256")
    && (k.use == Some("sig") || k.alg == Some("ES256"))
    && Truthy(k.x) && Truthy(k.y)
  }

  /** The key enters the table. */
  predicate Usable(importKey: Importer, k: Jwk) {
    Eligible(k) && importKey(k).Some?
  }

  function KidOf(k: Jwk): string {
    if k.kid.Some? then k.kid.value else "default"
  }

  /** A JavaScript Map: keys in insertion order, each with its latest value. */
  datatype KeyTable = KeyTable(order: seq<string>, pems: map<string, Pem>)

  const NO_KEYS := KeyTable([], map[])

  ghost predicate Consistent(t: KeyTable) {
    && (forall kid :: kid in t.order <==> kid in t.pems)
    && (forall i, j :: 0 <= i < j < |t.order| ==> t.order[i] != t.order[j])
  }

  function SetKey(t: KeyTable, kid: string, pem: Pem): KeyTable {
    KeyTable(if kid in t.pems then t.order else t.order + [kid], t.pems[kid := pem])
  }

  function Primary(t: KeyTable): Option<Pem> {
    if t.order != [] && t.order[0] in t.pems then Some(t.pems[t.order[0]]) else None
  }

  /** The table built from a document's keys, read in order. */
  function TableOf(importKey: Importer, keys: seq<Jwk>): KeyTable {
    if keys == [] then NO_KEYS
    else
      var before := TableOf(importKey, keys[..|keys| - 1]);
      var k := keys[|keys| - 1];
      if Usable(importKey, k) then SetKey(before, KidOf(k), importKey(k).value) else before
  }

  /** The answer to a fetch: an error on the way, an HTTP error, a body that is not JSON, or a document. */
  datatype Fetched = NoResponse | BadStatus | NotJson | Document(keys: seq<Jwk>)

  /** What a load installs; None when it throws. */
  function Loaded(importKey: Importer, f: Fetched): Option<KeyTable> {
    if f.Document? && TableOf(importKey, f.keys).order != [] then Some(TableOf(importKey, f.keys)) else None
  }

  /** keys[i] is the last usable key carrying kid, which is 'default' for a key without one. */
  ghost predicate LastWith(importKey: Importer, keys: seq<Jwk>, kid: string, i: nat) {
    && i < |keys| && Usable(importKey, keys[i]) && kid == (if keys[i].kid.Some? then keys[i].kid.value else "default")
    && forall j :: i < j < |keys| ==> !(Usable(importKey, keys[j]) && KidOf(keys[j]) == kid)
  }

  /** keys[i] is the first usable key. */
  ghost predicate FirstUsable(importKey: Importer, keys: seq<Jwk>, i: nat) {
    && i < |keys| && Usable(importKey, keys[i])
    && forall j :: 0 <= j < i ==> !Usable(importKey, keys[j])
  }

  lemma {:induction false} TableConsistent(importKey: Importer, keys: seq<Jwk>)
    ensures Consistent(TableOf(importKey, keys))
    decreases |keys|
  {
    if keys != [] {
      TableConsistent(importKey, keys[..|keys| - 1]);
      var before, after := TableOf(importKey, keys[..|keys| - 1]), TableOf(importKey, keys);
      if after.order != before.order {
        assert forall kid :: kid in after.order <==> kid in before.order || kid == KidOf(keys[|keys| - 1]);
      }
    }
  }

  /** A kid maps to the last importable eligible key carrying it, and to nothing without one. */
  lemma {:induction false} KidMapsToLast(importKey: Importer, keys: seq<Jwk>, kid: string)
    ensures forall i: nat | LastWith(importKey, keys, kid, i) ::
              kid in TableOf(importKey, keys).pems && Some(TableOf(importKey, keys).pems[kid]) == importKey(keys[i])
    ensures kid in TableOf(importKey, keys).pems ==> exists i: nat :: LastWith(importKey, keys, kid, i)
    decreases |keys|
  {
    if keys != [] {
      var front, last := keys[..|keys| - 1], |keys| - 1;
      KidMapsToLast(importKey, front, kid);
      if Usable(importKey, keys[last]) && KidOf(keys[last]) == kid {
        assert LastWith(importKey, keys, kid, last);
      } else {
        forall i: nat | LastWith(importKey, keys, kid, i) ensures LastWith(importKey, front, kid, i) {
          assert i != last;
          assert forall j :: i < j < |front| ==> front[j] == keys[j];
        }
        if kid in TableOf(importKey, front).pems {
          var i: nat :| LastWith(importKey, front, kid, i);
          assert forall j :: 0 <= j < |front| ==> front[j] == keys[j];
          assert LastWith(importKey, keys, kid, i);
        }
      }
    }
  }

  /** The first inserted kid is the first usable key's, and a table without keys has no usable key. */
  lemma {:induction false} FirstInserted(importKey: Importer, keys: seq<Jwk>)
    ensures forall i: nat | FirstUsable(importKey, keys, i) ::
              TableOf(importKey, keys).order != [] && TableOf(importKey, keys).order[0] == KidOf(keys[i])
    ensures TableOf(importKey, keys).order != [] ==> exists i: nat :: FirstUsable(importKey, keys, i)
    decreases |keys|
  {
    if keys != [] {
      var front, last := keys[..|keys| - 1], |keys| - 1;
      FirstInserted(importKey, front);
      TableConsistent(importKey, front);
      assert forall j :: 0 <= j < |front| ==> front[j] == keys[j];
      if TableOf(importKey, front).order != [] {
        var i: nat :| FirstUsable(importKey, front, i);
        assert FirstUsable(importKey, keys, i);
        assert forall i': nat | FirstUsable(importKey, keys, i') :: i' == i;
      } else {
        assert forall j: nat :: !FirstUsable(importKey, front, j);
        NoneUsable(importKey, front, |front|);
        if Usable(importKey, keys[last]) {
          assert FirstUsable(importKey, keys, last);
          assert TableOf(importKey, front).pems == map[] by {
            assert forall kid :: kid !in TableOf(importKey, front).pems;
          }
        }
      }
    }
  }

  lemma {:induction false} NoneUsable(importKey: Importer, keys: seq<Jwk>, n: nat)
    requires n <= |keys| && forall j: nat :: !FirstUsable(importKey, keys, j)
    ensures forall j :: 0 <= j < n ==> !Usable(importKey, keys[j])
  {
    if n > 0 {
      NoneUsable(importKey, keys, n - 1);
      assert !FirstUsable(importKey, keys, n - 1);
    }
  }

  /** What a key of a document needs to be used: its type, curve, purpose and coordinates, and that it imports. */
  predicate IsUsableKey(importKey: Importer, k: Jwk) {
    && k.kty == "EC" && k.crv == Some("P-256") && (k.use == Some("sig") || k.alg == Some("ES256"))
    && k.x.Some? && k.x.value != "" && k.y.Some? && k.y.value != "" && importKey(k).Some?
  }

  /** A load succeeds exactly on a document with a usable key. */
  lemma LoadedExactly(importKey: Importer, f: Fetched)
    ensures Loaded(importKey, f).Some? <==> f.Document? && exists k <- f.keys :: IsUsableKey(importKey, k)
  {
    if f.Document? {
      SomeUsable(importKey, f.keys);
    }
  }

  lemma {:induction false} SomeUsable(importKey: Importer, keys: seq<Jwk>)
    ensures TableOf(importKey, keys).order != [] <==> exists k <- keys :: IsUsableKey(importKey, k)
    decreases |keys|
  {
    if keys != [] {
      var front, last := keys[..|keys| - 1], keys[|keys| - 1];
      SomeUsable(importKey, front);
      TableConsistent(importKey, front);
      assert forall k :: k in keys <==> k in front || k == last;
      assert Usable(importKey, last) <==> IsUsableKey(importKey, last);
      if Usable(importKey, last) && KidOf(last) in TableOf(importKey, front).pems {
        assert KidOf(last) in TableOf(importKey, front).order;
      }
    }
  }

  /**
   What a successful load installs: under each kid the last usable key of the document that carries it
   ('default' without one), and as primary the one under the kid of the first usable key.
   */
  lemma InstalledExactly(importKey: Importer, f: Fetched)
    requires Loaded(importKey, f).Some?
    ensures var t := Loaded(importKey, f).value;
            && (forall kid, i: nat | LastWith(importKey, f.keys, kid, i) :: kid in t.pems && Some(t.pems[kid]) == importKey(f.keys[i]))
            && (forall kid <- t.pems :: exists i: nat :: LastWith(importKey, f.keys, kid, i))
            && (forall i: nat | FirstUsable(importKey, f.keys, i) ::
                  var kid := if f.keys[i].kid.Some? then f.keys[i].kid.value else "default";
                  kid in t.pems && Primary(t) == Some(t.pems[kid]))
  {
    var t := Loaded(importKey, f).value;
    forall kid, i: nat | LastWith(importKey, f.keys, kid, i) ensures kid in t.pems && Some(t.pems[kid]) == importKey(f.keys[i]) {
      KidMapsToLast(importKey, f.keys, kid);
    }
    forall kid <- t.pems ensures exists i: nat :: LastWith(importKey, f.keys, kid, i) {
      KidMapsToLast(importKey, f.keys, kid);
    }
    FirstInserted(importKey, f.keys);
    TableConsistent(importKey, f.keys);
    assert t.order[0] in t.order;
  }

  // ---------------------------------------------------------------- fields and their updates

  /** The service's fields; a timer is its due time. */
  datatype Fields = Fields(
    keyMap: KeyTable,
    primaryPem: Option<Pem>,
    reloadPromise: bool,
    reloadDebounceTimer: Option<int>,
    pendingTimer: Option<int>,
    destroyed: bool)

  const FRESH_FIELDS := Fields(NO_KEYS, None, false, None, None, false)

  predicate IsReady(f: Fields) {
    f.primaryPem.Some?
  }

  function GetPublicKeyPem(f: Fields, kid: Option<string>): Option<Pem> {
    match kid
    case Some(k) => if k in f.keyMap.pems then Some(f.keyMap.pems[k]) else None
    case None => f.primaryPem
  }

  /** The fields after a load settles; a load that throws changes nothing. */
  function AfterLoad(f: Fields, loaded: Option<KeyTable>): Fields {
    match loaded
    case None => f
    case Some(t) => f.(keyMap := t, primaryPem := Primary(t))
  }

  function AfterDestroy(f: Fields): Fields {
    f.(destroyed := true, pendingTimer := None, reloadDebounceTimer := None)
  }

  /** Whether `scheduleReloadForUnknownKid` starts a load. */
  predicate ReloadStarts(f: Fields) {
    !f.reloadPromise && f.reloadDebounceTimer.None?
  }

  function AfterReload(f: Fields, now: int): Fields {
    f.(reloadPromise := false, reloadDebounceTimer := Some(now + RELOAD_DEBOUNCE_MS))
  }

  function AfterSleep(f: Fields, now: int, ms: nat): Fields {
    f.(pendingTimer := Some(now + ms))
  }

  // ---------------------------------------------------------------- the step machine

  /** Where the startup retry, and after it the background loop, stands. */
  datatype Loop =
    | Loading(attempt: nat, delay: nat)     // startup load in flight
    | Sleeping(attempt: nat, delay: nat)    // between startup loads
    | Woken(attempt: nat, delay: nat)       // its timer fired
    | BackgroundSleeping
    | BackgroundWoken
    | BackgroundLoading
    | Stopped

  /** The promise chain of an unknown-kid reload. */
  datatype Reload = Idle | Fetching | Settling

  datatype State = State(
    clock: int,
    fields: Fields,
    loop: Loop,
    reload: Reload,
    reloadStarts: seq<int>,   // history: when unknown-kid reloads started
    loopLoads: nat,           // history: loads the startup and background loops began
    startupLoads: nat,        // history: those of the startup loop
    startupSlept: nat)        // history: its sleeps, in ms

  datatype Step =
    | TimePasses(dt: nat)
    | LoopLoadEnds(fetched: Fetched)
    | SleepTimerFires
    | LoopResumes
    | Request(kid: Option<string>)     // the guard handles a token with this kid
    | ReloadEnds(fetched: Fetched)
    | ReloadSettles
    | DebounceTimerFires
    | Destroy

  /** `onModuleInit` has just started the first load. */
  function Initial(now: int): State {
    State(now, FRESH_FIELDS, Loading(1, BACKOFF_INITIAL_MS), Idle, [], 1, 1, 0)
  }

  predicate Enabled(s: State, step: Step) {
    match step
    case TimePasses(_) => true
    case LoopLoadEnds(_) => s.loop.Loading? || s.loop.BackgroundLoading?
    case SleepTimerFires =>
      && (s.loop.Sleeping? || s.loop.BackgroundSleeping?)
      && s.fields.pendingTimer.Some? && s.fields.pendingTimer.value <= s.clock
    case LoopResumes => s.loop.Woken? || s.loop.BackgroundWoken?
    case Request(_) => true
    case ReloadEnds(_) => s.reload.Fetching?
    case ReloadSettles => s.reload.Settling?
    case DebounceTimerFires =>
      s.fields.reloadDebounceTimer.Some? && s.fields.reloadDebounceTimer.value <= s.clock
    case Destroy => true
  }

  /** The head of the background loop. */
  function BackgroundTurn(s: State): State {
    if IsReady(s.fields) || s.fields.destroyed then s.(loop := Stopped)
    else s.(loop := BackgroundSleeping, fields := AfterSleep(s.fields, s.clock, BACKGROUND_RETRY_MS))
  }

  function LoopLoadStep(importKey: Importer, s: State, f: Fetched): State
    requires s.loop.Loading? || s.loop.BackgroundLoading?
  {
    var loaded := Loaded(importKey, f);
    var s1 := s.(fields := AfterLoad(s.fields, loaded));
    match s.loop
    case Loading(attempt, delay) =>
      if loaded.Some? || s.fields.destroyed then s1.(loop := Stopped)
      else if attempt < BACKOFF_MAX_ATTEMPTS then
        s1.(loop := Sleeping(attempt, delay), fields := AfterSleep(s1.fields, s.clock, delay),
            startupSlept := s.startupSlept + delay)
      else BackgroundTurn(s1)
    case _ => BackgroundTurn(s1)
  }

  function LoopResumeStep(s: State): State
    requires s.loop.Woken? || s.loop.BackgroundWoken?
  {
    match s.loop
    case Woken(attempt, delay) =>
      if s.fields.destroyed then s.(loop := Stopped)
      else s.(loop := Loading(attempt + 1, delay * 2), loopLoads := s.loopLoads + 1, startupLoads := s.startupLoads + 1)
    case _ =>
      if s.fields.destroyed || IsReady(s.fields) then s.(loop := Stopped)
      else s.(loop := BackgroundLoading, loopLoads := s.loopLoads + 1)
  }

  /** The guard asks for a reload exactly when a token names a kid the table does not have. */
  function RequestStep(s: State, kid: Option<string>): State {
    if kid.Some? && GetPublicKeyPem(s.fields, kid).None? && ReloadStarts(s.fields) then
      s.(fields := s.fields.(reloadPromise := true), reload := Fetching, reloadStarts := s.reloadStarts + [s.clock])
    else s
  }

  function Apply(importKey: Importer, s: State, step: Step): State
    requires Enabled(s, step)
  {
    match step
    case TimePasses(dt) => s.(clock := s.clock + dt)
    case LoopLoadEnds(f) => LoopLoadStep(importKey, s, f)
    case SleepTimerFires =>
      s.(fields := s.fields.(pendingTimer := None),
         loop := if s.loop.Sleeping? then Woken(s.loop.attempt, s.loop.delay) else BackgroundWoken)
    case LoopResumes => LoopResumeStep(s)
    case Request(kid) => RequestStep(s, kid)
    case ReloadEnds(f) => s.(fields := AfterLoad(s.fields, Loaded(importKey, f)), reload := Settling)
    case ReloadSettles => s.(fields := AfterReload(s.fields, s.clock), reload := Idle)
    case DebounceTimerFires => s.(fields := s.fields.(reloadDebounceTimer := None))
    case Destroy => s.(fields := AfterDestroy(s.fields))
  }

  predicate Valid(importKey: Importer, s: State, steps: seq<Step>)
    decreases |steps|
  {
    steps == [] || (Enabled(s, steps[0]) && Valid(importKey, Apply(importKey, s, steps[0]), steps[1..]))
  }

  function After(importKey: Importer, s: State, steps: seq<Step>): State
    requires Valid(importKey, s, steps)
    decreases |steps|
  {
    if steps == [] then s else After(importKey, Apply(importKey, s, steps[0]), steps[1..])
  }
}
