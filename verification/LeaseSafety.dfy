/**
 The Redis lease: who can lose it, and when at most one run holds it.  The owner id in the lock is the
 pod's, so two runs of one pod share it.
 */
module LeaseSafety {
  import opened Wrappers
  import opened Sets
  import opened Protocol

  /** The run has a lease that has neither run out nor been released. */
  ghost predicate Holding(s: State, r: RunId) {
    r in s.runs && !s.runs[r].released && s.clock < s.runs[r].expiry
  }

  ghost predicate AtMostOneHolder(s: State) {
    forall r, r' | Holding(s, r) && Holding(s, r') :: r == r'
  }

  /** Leases and lock agree: a holder's lease is the lock, and a live lock has a holder. */
  ghost predicate LeaseInv(s: State) {
    && AtMostOneHolder(s)
    && (forall r | Holding(s, r) :: s.lock == Some(Lease(s.runs[r].pod, s.runs[r].expiry)))
    && (LockLive(s) ==> exists r :: Holding(s, r))
  }

  /** The release script runs for r and finds its own pod's id, but in a lock that is not r's. */
  ghost predicate StaleRelease(s: State, step: Step) {
    && step.Release? && step.redisUp && step.run in s.runs
    && LockLive(s) && s.lock.value.owner == s.runs[step.run].pod
    && !Holding(s, step.run)
  }

  /** A live lock disappears or changes only when a run of its owner's pod releases. */
  lemma LockLostOnlyToOwner(s: State, step: Step)
    requires Enabled(s, step) && LockLive(s) && Apply(s, step).lock != s.lock
    ensures step.Release? && s.runs[step.run].pod == s.lock.value.owner && Apply(s, step).lock == None
  {
  }

  /** A run starts exactly when no lock is live, and then holds one for its pod for 55 s. */
  lemma AcquiredExactly(s: State, r: RunId, pod: Pod)
    requires r !in s.runs
    ensures var s' := Apply(s, Acquire(r, pod));
            && (r in s'.runs <==> s.lock.None? || s.lock.value.expiry <= s.clock)
            && (r !in s'.runs ==> s' == s)
            && (r in s'.runs ==>
                  && s'.lock == Some(Lease(pod, s.clock + 55000)) && s'.rows == s.rows
                  && s'.runs[r].pod == pod && s'.runs[r].expiry == s.clock + 55000
                  && s'.runs[r].pc == Started && s'.runs[r].claimed == [])
  {
  }

  /** Nothing about leases changes except that time may pass. */
  ghost predicate SameLeases(s: State, s': State) {
    && s'.lock == s.lock && s.clock <= s'.clock && s'.runs.Keys == s.runs.Keys
    && forall r <- s.runs :: s'.runs[r].pod == s.runs[r].pod && s'.runs[r].expiry == s.runs[r].expiry
                             && s'.runs[r].released == s.runs[r].released
                             && (s.runs[r].pc.Ended? ==> s'.runs[r].pc.Ended?)
  }

  /** The step belongs to one existing run. */
  predicate OfRun(step: Step) {
    || step.ReadClock? || step.Select? || step.SelectFails? || step.Claim? || step.ClaimFails?
    || step.Call? || step.ReplyOk? || step.ReplyError? || step.SaveOk? || step.SaveFails?
    || step.FinishLoop? || step.Release? || step.Crash?
  }

  lemma MostStepsKeepLeases(s: State, step: Step)
    requires Enabled(s, step) && !(step.Release? && step.redisUp) && !(step.Acquire? && !LockLive(s))
    ensures SameLeases(s, Apply(s, step))
  {
    if OfRun(step) {
      RunStepEffect(s, step);
    }
  }

  lemma RunStepEffect(s: State, step: Step)
    requires Enabled(s, step) && OfRun(step) && !(step.Release? && step.redisUp)
    ensures SameLeases(s, Apply(s, step))
  {
    var r, s' := step.run, Apply(s, step);
    assert s'.lock == s.lock && s'.clock == s.clock;
    OneRunChanged(s, s', r, s'.runs[r]);
  }

  lemma OneRunChanged(s: State, s': State, r: RunId, run': Run)
    requires r in s.runs && s'.lock == s.lock && s'.clock == s.clock && s'.runs == s.runs[r := run']
    requires run'.pod == s.runs[r].pod && run'.expiry == s.runs[r].expiry && run'.released == s.runs[r].released
    requires s.runs[r].pc.Ended? ==> run'.pc.Ended?
    ensures SameLeases(s, s')
  {
  }

  lemma SameLeasesKeep(s: State, s': State)
    requires LeaseInv(s) && SameLeases(s, s')
    ensures LeaseInv(s')
  {
    assert forall r :: Holding(s', r) ==> Holding(s, r);
    if LockLive(s') {
      var r :| Holding(s, r);
      assert Holding(s', r);
    }
  }

  lemma AcquireKeeps(s: State, r: RunId, pod: Pod)
    requires LeaseInv(s) && r !in s.runs && !LockLive(s)
    ensures LeaseInv(AcquireLock(s, r, pod))
  {
    assert forall r' :: !Holding(s, r');
    assert Holding(AcquireLock(s, r, pod), r);
  }

  lemma ReleaseKeepsExactly(s: State, r: RunId)
    requires LeaseInv(s) && Enabled(s, Release(r, true))
    ensures LeaseInv(ReleaseStep(s, r, true)) <==> !StaleRelease(s, Release(r, true))
  {
    var s' := ReleaseStep(s, r, true);
    assert forall r' :: Holding(s', r') <==> Holding(s, r') && r' != r;
    if LockLive(s) {
      var r' :| Holding(s, r');
      assert r' != r ==> Holding(s', r');
    }
  }

  /** The agreement survives a step exactly when the step is no stale release. */
  lemma LeaseKeptExactly(s: State, step: Step)
    requires LeaseInv(s) && Enabled(s, step)
    ensures LeaseInv(Apply(s, step)) <==> !StaleRelease(s, step)
  {
    if step.Acquire? && !LockLive(s) {
      AcquireKeeps(s, step.run, step.pod);
    } else if step.Release? && step.redisUp {
      ReleaseKeepsExactly(s, step.run);
    } else {
      MostStepsKeepLeases(s, step);
      SameLeasesKeep(s, Apply(s, step));
    }
  }

  /** No step of the run is a stale release. */
  ghost predicate NoStaleRelease(s: State, steps: seq<Step>)
    requires Valid(s, steps)
    decreases |steps|
  {
    steps == [] || (!StaleRelease(s, steps[0]) && NoStaleRelease(Apply(s, steps[0]), steps[1..]))
  }

  lemma {:induction false} LeaseKept(s: State, steps: seq<Step>)
    requires LeaseInv(s) && Valid(s, steps) && NoStaleRelease(s, steps)
    ensures LeaseInv(After(s, steps))
    decreases |steps|
  {
    if steps != [] {
      LeaseKeptExactly(s, steps[0]);
      LeaseKept(Apply(s, steps[0]), steps[1..]);
    }
  }

  // ---------------------------------------------------------------- when a second holder can come

  /** There is one holder at most, and no acquisition now would make a second one. */
  ghost predicate Exclusive(s: State) {
    forall r: RunId, pod: Pod :: r !in s.runs ==> AtMostOneHolder(AcquireLock(s, r, pod))
  }

  lemma AgreementExcludes(s: State)
    requires LeaseInv(s)
    ensures Exclusive(s)
  {
    forall r: RunId, pod: Pod | r !in s.runs ensures AtMostOneHolder(AcquireLock(s, r, pod)) {
      if !LockLive(s) {
        AcquireKeeps(s, r, pod);
      }
    }
  }

  /** A stale release leaves a holder without its lock, so any pod can become the second holder. */
  lemma StaleReleaseBreaks(s: State, step: Step, r2: RunId, pod: Pod)
    requires LeaseInv(s) && Enabled(s, step) && StaleRelease(s, step) && r2 !in s.runs
    ensures !AtMostOneHolder(AcquireLock(Apply(s, step), r2, pod))
  {
    var s' := ReleaseStep(s, step.run, true);
    var r :| Holding(s, r);
    assert Holding(s', r);
    assert Holding(AcquireLock(s', r2, pod), r) && Holding(AcquireLock(s', r2, pod), r2);
  }

  /** Exclusion survives a step exactly when the step is no stale release. */
  lemma ExclusionKeptExactly(s: State, step: Step)
    requires LeaseInv(s) && Enabled(s, step)
    ensures Exclusive(Apply(s, step)) <==> !StaleRelease(s, step)
  {
    LeaseKeptExactly(s, step);
    if StaleRelease(s, step) {
      var r := Unused(s.runs.Keys);
      assert Apply(s, step).runs.Keys == s.runs.Keys;
      StaleReleaseBreaks(s, step, r, 0);
      assert r !in Apply(s, step).runs;
    } else {
      AgreementExcludes(Apply(s, step));
    }
  }

  /** Every state the steps go through is exclusive. */
  ghost predicate AlwaysExclusive(s: State, steps: seq<Step>)
    requires Valid(s, steps)
    decreases |steps|
  {
    steps == [] || (Exclusive(Apply(s, steps[0])) && AlwaysExclusive(Apply(s, steps[0]), steps[1..]))
  }

  /** Over a whole run the lock excludes a second holder throughout exactly when no release in it is stale. */
  lemma {:induction false} ExclusiveRunsExactly(s: State, steps: seq<Step>)
    requires LeaseInv(s) && Valid(s, steps)
    ensures AlwaysExclusive(s, steps) <==> NoStaleRelease(s, steps)
    decreases |steps|
  {
    if steps != [] {
      ExclusionKeptExactly(s, steps[0]);
      LeaseKeptExactly(s, steps[0]);
      if !StaleRelease(s, steps[0]) {
        ExclusiveRunsExactly(Apply(s, steps[0]), steps[1..]);
      }
    }
  }

  // ---------------------------------------------------------------- no overlap within a pod

  /** A pod starts a run only when its earlier runs have ended; a tick that the lock refuses starts none. */
  ghost predicate NoOverlap(s: State, steps: seq<Step>)
    requires Valid(s, steps)
    decreases |steps|
  {
    steps == [] ||
    ((steps[0].Acquire? && !LockLive(s) ==> forall r <- s.runs :: s.runs[r].pod == steps[0].pod ==> s.runs[r].pc.Ended?)
     && NoOverlap(Apply(s, steps[0]), steps[1..]))
  }

  /** A pod with a holder has no other run in progress. */
  ghost predicate PodsAgree(s: State) {
    forall r, r' | Holding(s, r) && r' in s.runs && s.runs[r'].pod == s.runs[r].pod && !s.runs[r'].pc.Ended? ::
      r == r'
  }

  lemma {:induction false} NoOverlapNoStale(s: State, steps: seq<Step>)
    requires LeaseInv(s) && PodsAgree(s) && Valid(s, steps) && NoOverlap(s, steps)
    ensures NoStaleRelease(s, steps)
    decreases |steps|
  {
    if steps != [] {
      var s' := Apply(s, steps[0]);
      if LockLive(s) {
        var r :| Holding(s, r);
        assert !StaleRelease(s, steps[0]);
      }
      LeaseKeptExactly(s, steps[0]);
      PodsKept(s, steps[0]);
      NoOverlapNoStale(s', steps[1..]);
    }
  }

  lemma PodsKept(s: State, step: Step)
    requires LeaseInv(s) && PodsAgree(s) && Enabled(s, step)
    requires step.Acquire? && !LockLive(s) ==> forall r <- s.runs :: s.runs[r].pod == step.pod ==> s.runs[r].pc.Ended?
    ensures PodsAgree(Apply(s, step))
  {
    if step.Acquire? && !LockLive(s) {
      assert forall r' :: !Holding(s, r');
      PodsKeptByAcquire(s, step.run, step.pod);
    } else if step.Release? && step.redisUp {
      PodsKeptByFewer(s, ReleaseStep(s, step.run, true));
    } else {
      MostStepsKeepLeases(s, step);
      PodsKeptByFewer(s, Apply(s, step));
    }
  }

  lemma PodsKeptByAcquire(s: State, r: RunId, pod: Pod)
    requires r !in s.runs && !LockLive(s) && forall r' :: !Holding(s, r')
    requires forall r' <- s.runs :: s.runs[r'].pod == pod ==> s.runs[r'].pc.Ended?
    ensures PodsAgree(AcquireLock(s, r, pod))
  {
    var s' := AcquireLock(s, r, pod);
    assert forall r' :: Holding(s', r') ==> r' == r || Holding(s, r');
  }

  lemma PodsKeptByFewer(s: State, s': State)
    requires PodsAgree(s) && s.clock <= s'.clock && s'.runs.Keys == s.runs.Keys
    requires forall r <- s.runs :: s'.runs[r].pod == s.runs[r].pod && s'.runs[r].expiry == s.runs[r].expiry
                                   && (s.runs[r].released ==> s'.runs[r].released)
                                   && (s.runs[r].pc.Ended? ==> s'.runs[r].pc.Ended?)
    ensures PodsAgree(s')
  {
    assert forall r :: Holding(s', r) ==> Holding(s, r);
  }

  /**
   From an empty system, if one pod's runs never overlap, at most one run at any time has an unexpired,
   unreleased lease, and that lease is the lock.
   */
  lemma LeaseSafetyWithoutOverlap(s: State, steps: seq<Step>)
    requires Initial(s) && Valid(s, steps) && NoOverlap(s, steps)
    ensures AtMostOneHolder(After(s, steps))
    ensures forall r | Holding(After(s, steps), r) ::
              After(s, steps).lock == Some(Lease(After(s, steps).runs[r].pod, After(s, steps).runs[r].expiry))
  {
    NoOverlapNoStale(s, steps);
    LeaseKept(s, steps);
  }
}
