/** Every step of the session manager keeps its invariant. */
module ManagerProofs {
  import opened Collections
  import opened ManagerModel
  import opened ManagerInvariant

  // ----- the shape of the proofs -----

  /** Only session x, with its launches and timers, has changed. */
  ghost predicate Local(s: State, s': State, x: nat) {
    && TableInv(s')
    && |s'.all| >= |s.all|
    && forall y :: 0 <= y < |s'.all| && y != x ==> Untouched(s, s', y)
  }

  ghost predicate LaunchesInv(s: State, x: nat)
    requires x < |s.all|
  {
    forall l :: Own(s, x, l) ==> LaunchInv(s, x, l)
  }

  ghost predicate RecordInv(s: State, x: nat)
    requires x < |s.all|
  {
    HolderInv(s, x) && ChannelInv(s, x) && CleanupInv(s, x) && IdleInv(s, x) && ClaimsInv(s, x)
  }

  /** A step that touches one session only has to re-establish that session's part. */
  lemma OneSession(s: State, s': State, x: nat)
    requires Inv(s) && Local(s, s', x)
    requires x < |s'.all| ==> RecordInv(s', x) && LaunchesInv(s', x) && OrderInv(s', x)
    ensures Inv(s')
  {
    forall y | 0 <= y < |s'.all| ensures SessionInv(s', y) {
      if y != x { UntouchedSession(s, s', y); }
    }
  }

  /** How a step that keeps the table shows that it is local. */
  lemma LocalStep(s: State, s': State, x: nat)
    requires Inv(s) && x < |s.all|
    requires s'.sessions == s.sessions && s'.closed == s.closed && s'.claims == s.claims && s'.now == s.now
    requires |s'.all| == |s.all| && s'.all[x].config.id == s.all[x].config.id
    requires forall y :: 0 <= y < |s.all| && y != x ==> s'.all[y] == s.all[y]
    requires |s'.launches| == |s.launches|
    requires forall l :: 0 <= l < |s.launches| ==>
      && s'.launches[l].session == s.launches[l].session
      && (s.launches[l].session != x ==> s'.launches[l] == s.launches[l])
    requires |s'.timers| >= |s.timers|
    requires forall t :: 0 <= t < |s.timers| ==>
      s'.timers[t].session == s.timers[t].session && (s.timers[t].session != x ==> s'.timers[t] == s.timers[t])
    requires forall t :: |s.timers| <= t < |s'.timers| ==> s'.timers[t].session == x
    requires s.cleanups <= s'.cleanups
    requires forall c, l: nat :: c in s'.cleanups - s.cleanups && Refers(c, l) ==> Own(s, x, l)
    ensures Local(s, s', x)
    ensures InTable(s', x) <==> InTable(s, x)
    ensures forall l :: Own(s', x, l) <==> Own(s, x, l)
  {
  }

  lemma CleanupsGrow(s: State, s': State, l: nat)
    requires s.cleanups <= s'.cleanups
    ensures AwaitsKill(s, l) ==> AwaitsKill(s', l)
    ensures AwaitsClose(s, l) ==> AwaitsClose(s', l)
    ensures AwaitsCancel(s, l) ==> AwaitsCancel(s', l)
  {
  }

  /** Launches that did not fail meanwhile stay in order. */
  lemma SameFailuresKeepOrder(s: State, s': State, x: nat)
    requires OrderInv(s, x)
    requires forall k :: Own(s', x, k) <==> Own(s, x, k)
    requires forall k :: Own(s, x, k) && Own(s', x, k) ==>
      && (s.launches[k].phase == Done ==> s'.launches[k].phase == Done)
      && s'.launches[k].failure == s.launches[k].failure && s'.launches[k].startedAt == s.launches[k].startedAt
    ensures OrderInv(s', x)
  {
    forall j, k | Own(s', x, j) && Own(s', x, k) && j < k ensures BackedOff(s'.launches[j], s'.launches[k]) {
      assert BackedOff(s.launches[j], s.launches[k]);
    }
  }

  /** The last launch of a session may fail, with the next count, without breaking the order. */
  lemma FailureKeepsOrder(s: State, s': State, x: nat, l: nat)
    requires x < |s.all| && OrderInv(s, x) && LaunchesInv(s, x)
    requires Own(s, x, l) && Own(s', x, l) && s.launches[l].phase != Done
    requires forall k :: Own(s', x, k) <==> Own(s, x, k)
    requires forall k :: Own(s, x, k) && Own(s', x, k) ==> s'.launches[k].startedAt == s.launches[k].startedAt
    requires forall k :: Own(s, x, k) && Own(s', x, k) && k != l ==>
      s'.launches[k].phase == s.launches[k].phase && s'.launches[k].failure == s.launches[k].failure
    requires s'.launches[l].failure.Some? && s'.launches[l].failure.value.count == s.all[x].failures + 1
    ensures OrderInv(s', x)
  {
    forall j, k | Own(s', x, j) && Own(s', x, k) && j < k ensures BackedOff(s'.launches[j], s'.launches[k]) {
      assert BackedOff(s.launches[j], s.launches[k]);
      assert LaunchInv(s, x, j);
    }
  }

  lemma TickKeepsInv(s: State, d: nat)
    requires Inv(s)
    ensures Inv(Next(s, Tick(d)))
  {
    OneSession(s, Next(s, Tick(d)), |s.all|);
  }

  // ----- the startup goroutine -----

  /** A step of one launch outside the lock: only its phase and its process change. */
  lemma LaunchStepLocal(s: State, l: nat, launch: Launch)
    requires Inv(s) && l < |s.launches| && launch.session == s.launches[l].session
    requires launch.woken == s.launches[l].woken
    ensures Local(s, s.(launches := s.launches[l := launch]), launch.session)
    ensures ChannelInv(s.(launches := s.launches[l := launch]), launch.session)
  {
    assert SessionInv(s, launch.session);
  }

  /** Such a step keeps the invariant if it keeps its session's part. */
  lemma LaunchStepKeepsInv(s: State, l: nat, launch: Launch)
    requires Inv(s) && l < |s.launches| && launch.session == s.launches[l].session
    requires launch.woken == s.launches[l].woken && launch.failure == s.launches[l].failure
    requires launch.startedAt == s.launches[l].startedAt && (s.launches[l].phase == Done ==> launch.phase == Done)
    requires launch.session < |s.all|
    requires var s' := s.(launches := s.launches[l := launch]);
      HolderInv(s', launch.session) && CleanupInv(s', launch.session) && LaunchesInv(s', launch.session)
    ensures Inv(s.(launches := s.launches[l := launch]))
  {
    var s', x := s.(launches := s.launches[l := launch]), launch.session;
    assert SessionInv(s, x);
    LaunchStepLocal(s, l, launch);
    SameFailuresKeepOrder(s, s', x);
    OneSession(s, s', x);
  }

  lemma SpawnKeepsLaunches(s: State, l: nat)
    requires Inv(s) && Enabled(s, Spawn(l))
    ensures LaunchesInv(Next(s, Spawn(l)), s.launches[l].session)
  {
    var s' := Next(s, Spawn(l));
    var x := s.launches[l].session;
    assert SessionInv(s, x);
    forall k | Own(s', x, k) ensures LaunchInv(s', x, k) {
      assert LaunchInv(s, x, k);
    }
  }

  lemma SpawnKeepsInv(s: State, l: nat)
    requires Inv(s) && Enabled(s, Spawn(l))
    ensures Inv(Next(s, Spawn(l)))
  {
    var x := s.launches[l].session;
    assert SessionInv(s, x) && Own(s, x, l) && LaunchInv(s, x, l);
    SpawnKeepsLaunches(s, l);
    LaunchStepKeepsInv(s, l, s.launches[l].(phase := Spawned, process := Running));
  }

  lemma ExitKeepsLaunches(s: State, l: nat)
    requires Inv(s) && Enabled(s, ProcessExits(l))
    ensures LaunchesInv(Next(s, ProcessExits(l)), s.launches[l].session)
  {
    var s' := Next(s, ProcessExits(l));
    var x := s.launches[l].session;
    assert SessionInv(s, x);
    forall k | Own(s', x, k) ensures LaunchInv(s', x, k) {
      assert LaunchInv(s, x, k);
      CleanupsGrow(s, s', k);
    }
  }

  lemma ExitKeepsInv(s: State, l: nat)
    requires Inv(s) && Enabled(s, ProcessExits(l))
    ensures Inv(Next(s, ProcessExits(l)))
  {
    var x := s.launches[l].session;
    assert SessionInv(s, x) && Own(s, x, l);
    ExitKeepsLaunches(s, l);
    LaunchStepKeepsInv(s, l, s.launches[l].(process := Exited));
  }

  lemma PublishLocal(s: State, l: nat)
    requires Inv(s) && Enabled(s, Publish(l))
    ensures Local(s, PublishStep(s, l), s.launches[l].session)
  {
    LocalStep(s, PublishStep(s, l), s.launches[l].session);
  }

  lemma PublishKeepsLaunches(s: State, l: nat)
    requires Inv(s) && Enabled(s, Publish(l))
    ensures LaunchesInv(PublishStep(s, l), s.launches[l].session)
  {
    var s' := PublishStep(s, l);
    var x := s.launches[l].session;
    assert SessionInv(s, x) && Own(s, x, l);
    assert InTable(s', x) <==> InTable(s, x);
    forall k | Own(s', x, k) ensures LaunchInv(s', x, k) {
      assert LaunchInv(s, x, k);
      CleanupsGrow(s, s', k);
      if k == l && !InTable(s, x) { assert Cleanup(Some(l), None, None) in s'.cleanups; }
    }
  }

  lemma PublishKeepsRecord(s: State, l: nat)
    requires Inv(s) && Enabled(s, Publish(l))
    ensures RecordInv(PublishStep(s, l), s.launches[l].session)
  {
    var x := s.launches[l].session;
    assert SessionInv(s, x) && Own(s, x, l) && LaunchInv(s, x, l);
  }

  lemma PublishKeepsInv(s: State, l: nat)
    requires Inv(s) && Enabled(s, Publish(l))
    ensures Inv(PublishStep(s, l))
  {
    PublishLocal(s, l);
    PublishKeepsRecord(s, l);
    PublishKeepsLaunches(s, l);
    PublishKeepsOrder(s, l);
    OneSession(s, PublishStep(s, l), s.launches[l].session);
  }

  lemma PublishKeepsOrder(s: State, l: nat)
    requires Inv(s) && Enabled(s, Publish(l))
    ensures OrderInv(PublishStep(s, l), s.launches[l].session)
  {
    assert SessionInv(s, s.launches[l].session);
    SameFailuresKeepOrder(s, PublishStep(s, l), s.launches[l].session);
  }

  /** The launch may take one of the failing ways out. */
  predicate CanFail(s: State, l: nat, owned: Option<nat>) {
    l < |s.launches| && s.launches[l].session < |s.all|
    && if owned == None then s.launches[l].phase == Starting
       else owned == Some(l) && s.launches[l].phase == Initializing
  }

  lemma FailLocal(s: State, l: nat, owned: Option<nat>)
    requires Inv(s) && CanFail(s, l, owned)
    ensures Local(s, FailStep(s, l, owned), s.launches[l].session)
  {
    if s.closed || !InTable(s, s.launches[l].session) { AbandonLocal(s, l, owned); } else { RecordLocal(s, l, owned); }
  }

  lemma AbandonLocal(s: State, l: nat, owned: Option<nat>)
    requires Inv(s) && CanFail(s, l, owned)
    ensures Local(s, AbandonedStartup(s, l, owned), s.launches[l].session)
  {
    FailureCleanupIsOwn(s, l, owned);
    LocalStep(s, AbandonedStartup(s, l, owned), s.launches[l].session);
  }

  lemma FailureCleanupIsOwn(s: State, l: nat, owned: Option<nat>)
    requires Inv(s) && CanFail(s, l, owned)
    ensures var x := s.launches[l].session;
      && (forall k: nat :: Refers(Cleanup(owned, owned, s.all[x].cancel), k) ==> Own(s, x, k))
      && (s.all[x].starting.Some? ==> Own(s, x, s.all[x].starting.value))
  {
    assert SessionInv(s, s.launches[l].session);
  }

  lemma RecordLocal(s: State, l: nat, owned: Option<nat>)
    requires Inv(s) && CanFail(s, l, owned)
    ensures Local(s, RecordedFailure(s, l, owned), s.launches[l].session)
  {
    FailureCleanupIsOwn(s, l, owned);
    LocalStep(s, RecordedFailure(s, l, owned), s.launches[l].session);
  }

  lemma StaleFailKeepsLaunch(s: State, l: nat, owned: Option<nat>, k: nat)
    requires Inv(s) && CanFail(s, l, owned) && Own(s, s.launches[l].session, k)
    requires !InTable(s, s.launches[l].session)
    ensures Own(FailStep(s, l, owned), s.launches[l].session, k)
    ensures LaunchInv(FailStep(s, l, owned), s.launches[l].session, k)
  {
    var s' := FailStep(s, l, owned);
    var x := s.launches[l].session;
    assert SessionInv(s, x) && LaunchInv(s, x, l) && LaunchInv(s, x, k);
    assert Cleanup(owned, owned, s.all[x].cancel) in s'.cleanups;
    CleanupsGrow(s, s', k);
  }

  lemma LiveFailKeepsLaunch(s: State, l: nat, owned: Option<nat>, k: nat)
    requires Inv(s) && CanFail(s, l, owned) && Own(s, s.launches[l].session, k)
    requires InTable(s, s.launches[l].session)
    ensures Own(FailStep(s, l, owned), s.launches[l].session, k)
    ensures LaunchInv(FailStep(s, l, owned), s.launches[l].session, k)
  {
    if k == l { FailKeepsItsLaunch(s, l, owned); } else { FailKeepsEarlierLaunch(s, l, owned, k); }
  }

  lemma FailKeepsItsLaunch(s: State, l: nat, owned: Option<nat>)
    requires Inv(s) && CanFail(s, l, owned) && InTable(s, s.launches[l].session)
    ensures Own(RecordedFailure(s, l, owned), s.launches[l].session, l)
    ensures LaunchInv(RecordedFailure(s, l, owned), s.launches[l].session, l)
  {
    var s' := RecordedFailure(s, l, owned);
    var x := s.launches[l].session;
    assert SessionInv(s, x) && LaunchInv(s, x, l);
    assert InTable(s', x);
    assert Cleanup(owned, owned, s.all[x].cancel) in s'.cleanups;
    CleanupsGrow(s, s', l);
  }

  lemma FailKeepsEarlierLaunch(s: State, l: nat, owned: Option<nat>, k: nat)
    requires Inv(s) && CanFail(s, l, owned) && InTable(s, s.launches[l].session)
    requires Own(s, s.launches[l].session, k) && k != l
    ensures Own(RecordedFailure(s, l, owned), s.launches[l].session, k)
    ensures LaunchInv(RecordedFailure(s, l, owned), s.launches[l].session, k)
  {
    FailKeepsEarlierHistory(s, l, owned, k);
    FailKeepsEarlierOwned(s, l, owned, k);
  }

  lemma FailKeepsEarlierHistory(s: State, l: nat, owned: Option<nat>, k: nat)
    requires Inv(s) && CanFail(s, l, owned) && InTable(s, s.launches[l].session)
    requires Own(s, s.launches[l].session, k) && k != l
    ensures Own(RecordedFailure(s, l, owned), s.launches[l].session, k)
    ensures WorkerInv(RecordedFailure(s, l, owned), s.launches[l].session, k)
    ensures FailureInv(RecordedFailure(s, l, owned), s.launches[l].session, k)
  {
    EarlierLaunchIsOver(s, l, k);
    assert RecordedFailure(s, l, owned).launches[k] == s.launches[k];
  }

  /** While a startup is in flight, the other launches of its session are over. */
  lemma EarlierLaunchIsOver(s: State, l: nat, k: nat)
    requires Inv(s) && l < |s.launches| && InTable(s, s.launches[l].session) && s.launches[l].InFlight()
    requires Own(s, s.launches[l].session, k) && k != l
    ensures s.launches[k].phase == Done
    ensures LaunchInv(s, s.launches[l].session, k) && LaunchInv(s, s.launches[l].session, l)
    ensures s.all[s.launches[l].session].starting == Some(l)
  {
    var x := s.launches[l].session;
    assert SessionInv(s, x) && LaunchInv(s, x, l) && LaunchInv(s, x, k);
  }

  lemma FailKeepsEarlierOwned(s: State, l: nat, owned: Option<nat>, k: nat)
    requires Inv(s) && CanFail(s, l, owned) && InTable(s, s.launches[l].session)
    requires Own(s, s.launches[l].session, k) && k != l
    ensures Own(RecordedFailure(s, l, owned), s.launches[l].session, k)
    ensures OwnedInv(RecordedFailure(s, l, owned), s.launches[l].session, k)
  {
    var s' := RecordedFailure(s, l, owned);
    var x := s.launches[l].session;
    assert SessionInv(s, x) && LaunchInv(s, x, l) && LaunchInv(s, x, k);
    assert Cleanup(owned, owned, s.all[x].cancel) in s'.cleanups;
    CleanupsGrow(s, s', k);
  }

  lemma FailKeepsRecord(s: State, l: nat, owned: Option<nat>)
    requires Inv(s) && CanFail(s, l, owned)
    ensures RecordInv(FailStep(s, l, owned), s.launches[l].session)
  {
    if InTable(s, s.launches[l].session) {
      LiveFailKeepsRecord(s, l, owned);
    } else {
      StaleFailKeepsRecord(s, l, owned);
    }
  }

  lemma LiveFailKeepsRecord(s: State, l: nat, owned: Option<nat>)
    requires Inv(s) && CanFail(s, l, owned) && InTable(s, s.launches[l].session)
    ensures RecordInv(FailStep(s, l, owned), s.launches[l].session)
  {
    var x := s.launches[l].session;
    assert SessionInv(s, x) && Own(s, x, l) && LaunchInv(s, x, l);
    FailLocal(s, l, owned);
  }

  lemma StaleFailKeepsRecord(s: State, l: nat, owned: Option<nat>)
    requires Inv(s) && CanFail(s, l, owned) && !InTable(s, s.launches[l].session)
    ensures RecordInv(FailStep(s, l, owned), s.launches[l].session)
  {
    var x := s.launches[l].session;
    assert SessionInv(s, x) && Own(s, x, l) && LaunchInv(s, x, l);
    FailLocal(s, l, owned);
  }

  lemma FailKeepsLaunches(s: State, l: nat, owned: Option<nat>)
    requires Inv(s) && CanFail(s, l, owned)
    ensures var s' := FailStep(s, l, owned); var x := s.launches[l].session;
      x < |s'.all| && forall k :: Own(s', x, k) ==> LaunchInv(s', x, k)
  {
    var s', x := FailStep(s, l, owned), s.launches[l].session;
    FailLocal(s, l, owned);
    forall k | Own(s', x, k) ensures LaunchInv(s', x, k) {
      if InTable(s, x) { LiveFailKeepsLaunch(s, l, owned, k); } else { StaleFailKeepsLaunch(s, l, owned, k); }
    }
  }

  lemma FailKeepsInv(s: State, l: nat, owned: Option<nat>)
    requires Inv(s) && CanFail(s, l, owned)
    ensures Inv(FailStep(s, l, owned))
  {
    var s' := FailStep(s, l, owned);
    var x := s.launches[l].session;
    FailLocal(s, l, owned);
    FailKeepsRecord(s, l, owned);
    FailKeepsLaunches(s, l, owned);
    FailKeepsOrder(s, l, owned);
    OneSession(s, s', x);
  }

  lemma FailKeepsOrder(s: State, l: nat, owned: Option<nat>)
    requires Inv(s) && CanFail(s, l, owned)
    ensures OrderInv(FailStep(s, l, owned), s.launches[l].session)
  {
    if InTable(s, s.launches[l].session) { LiveFailKeepsOrder(s, l, owned); } else { StaleFailKeepsOrder(s, l, owned); }
  }

  lemma LiveFailKeepsOrder(s: State, l: nat, owned: Option<nat>)
    requires Inv(s) && CanFail(s, l, owned) && InTable(s, s.launches[l].session)
    ensures OrderInv(RecordedFailure(s, l, owned), s.launches[l].session)
  {
    assert SessionInv(s, s.launches[l].session);
    FailureKeepsOrder(s, RecordedFailure(s, l, owned), s.launches[l].session, l);
  }

  lemma StaleFailKeepsOrder(s: State, l: nat, owned: Option<nat>)
    requires Inv(s) && CanFail(s, l, owned)
    ensures OrderInv(AbandonedStartup(s, l, owned), s.launches[l].session)
  {
    assert SessionInv(s, s.launches[l].session);
    SameFailuresKeepOrder(s, AbandonedStartup(s, l, owned), s.launches[l].session);
  }

  lemma SucceedLocal(s: State, l: nat)
    requires Inv(s) && Enabled(s, StartSucceeds(l)) && InTable(s, s.launches[l].session)
    ensures Local(s, SucceedStep(s, l), s.launches[l].session)
  {
    assert SessionInv(s, s.launches[l].session);
    LocalStep(s, SucceedStep(s, l), s.launches[l].session);
  }

  lemma SucceedKeepsLaunches(s: State, l: nat)
    requires Inv(s) && Enabled(s, StartSucceeds(l)) && InTable(s, s.launches[l].session)
    ensures LaunchesInv(SucceedStep(s, l), s.launches[l].session)
  {
    var s' := SucceedStep(s, l);
    var x := s.launches[l].session;
    assert SessionInv(s, x) && Own(s, x, l) && LaunchInv(s, x, l);
    assert InTable(s', x);
    forall k | Own(s', x, k) ensures LaunchInv(s', x, k) {
      assert LaunchInv(s, x, k);
      CleanupsGrow(s, s', k);
    }
  }

  lemma SucceedKeepsRecord(s: State, l: nat)
    requires Inv(s) && Enabled(s, StartSucceeds(l)) && InTable(s, s.launches[l].session)
    ensures RecordInv(SucceedStep(s, l), s.launches[l].session)
  {
    var x := s.launches[l].session;
    assert SessionInv(s, x) && Own(s, x, l) && LaunchInv(s, x, l);
  }

  lemma LiveSuccessKeepsInv(s: State, l: nat)
    requires Inv(s) && Enabled(s, StartSucceeds(l)) && InTable(s, s.launches[l].session)
    ensures Inv(SucceedStep(s, l))
  {
    var s' := SucceedStep(s, l);
    var x := s.launches[l].session;
    assert SessionInv(s, x);
    SucceedLocal(s, l);
    SucceedKeepsRecord(s, l);
    SucceedKeepsLaunches(s, l);
    SameFailuresKeepOrder(s, s', x);
    OneSession(s, s', x);
  }

  lemma SucceedKeepsInv(s: State, l: nat)
    requires Inv(s) && Enabled(s, StartSucceeds(l))
    ensures Inv(SucceedStep(s, l))
  {
    if s.closed || !InTable(s, s.launches[l].session) {
      FailKeepsInv(s, l, Some(l));
    } else {
      LiveSuccessKeepsInv(s, l);
    }
  }

  lemma WatchLocal(s: State, l: nat)
    requires Inv(s) && Enabled(s, WatchReturns(l))
    ensures Local(s, WatchStep(s, l), s.launches[l].session)
  {
    var x := s.launches[l].session;
    assert SessionInv(s, x) && Own(s, x, l) && LaunchInv(s, x, l);
    LocalStep(s, WatchStep(s, l), x);
  }

  lemma StaleExitKeepsLaunches(s: State, l: nat)
    requires Inv(s) && Enabled(s, WatchReturns(l)) && !InTable(s, s.launches[l].session)
    ensures LaunchesInv(SetPhase(s, l, Done), s.launches[l].session)
  {
    var s' := SetPhase(s, l, Done);
    var x := s.launches[l].session;
    assert SessionInv(s, x);
    assert !InTable(s', x);
    forall k | Own(s', x, k) ensures LaunchInv(s', x, k) {
      assert LaunchInv(s, x, k);
      CleanupsGrow(s, s', k);
    }
  }

  lemma CrashKeepsLaunch(s: State, l: nat, k: nat)
    requires Inv(s) && Enabled(s, WatchReturns(l)) && InTable(s, s.launches[l].session)
    requires Own(s, s.launches[l].session, k)
    ensures Own(RecordedExit(s, l), s.launches[l].session, k)
    ensures LaunchInv(RecordedExit(s, l), s.launches[l].session, k)
  {
    var s' := RecordedExit(s, l);
    var x := s.launches[l].session;
    assert SessionInv(s, x) && LaunchInv(s, x, l) && LaunchInv(s, x, k);
    assert InTable(s', x);
    CleanupsGrow(s, s', k);
  }

  lemma WatchKeepsLaunches(s: State, l: nat)
    requires Inv(s) && Enabled(s, WatchReturns(l))
    ensures LaunchesInv(WatchStep(s, l), s.launches[l].session)
  {
    var x := s.launches[l].session;
    if InTable(s, x) {
      forall k | Own(WatchStep(s, l), x, k) ensures LaunchInv(WatchStep(s, l), x, k) { CrashKeepsLaunch(s, l, k); }
    } else {
      StaleExitKeepsLaunches(s, l);
    }
  }

  lemma WatchKeepsRecord(s: State, l: nat)
    requires Inv(s) && Enabled(s, WatchReturns(l))
    ensures RecordInv(WatchStep(s, l), s.launches[l].session)
  {
    var x := s.launches[l].session;
    assert SessionInv(s, x) && Own(s, x, l) && LaunchInv(s, x, l);
  }

  lemma WatchKeepsOrder(s: State, l: nat)
    requires Inv(s) && Enabled(s, WatchReturns(l))
    ensures OrderInv(WatchStep(s, l), s.launches[l].session)
  {
    var x := s.launches[l].session;
    assert SessionInv(s, x);
    if InTable(s, x) {
      FailureKeepsOrder(s, WatchStep(s, l), x, l);
    } else {
      SameFailuresKeepOrder(s, WatchStep(s, l), x);
    }
  }

  lemma WatchKeepsInv(s: State, l: nat)
    requires Inv(s) && Enabled(s, WatchReturns(l))
    ensures Inv(WatchStep(s, l))
  {
    WatchLocal(s, l);
    WatchKeepsRecord(s, l);
    WatchKeepsLaunches(s, l);
    WatchKeepsOrder(s, l);
    OneSession(s, WatchStep(s, l), s.launches[l].session);
  }

  // ----- bookkeeping: references, timers and marks -----

  /** The record keeps what its launches depend on. */
  predicate SameOwnership(before: Session, after: Session) {
    && after.config.id == before.config.id && after.process == before.process && after.client == before.client
    && after.starting == before.starting && after.cancel == before.cancel
    && after.failures == before.failures && after.nextStart == before.nextStart
    && after.startErr == before.startErr
  }

  predicate LocalTimers(s: State, s': State, x: nat) {
    && |s'.timers| >= |s.timers|
    && (forall t :: 0 <= t < |s.timers| ==>
          s'.timers[t].session == s.timers[t].session && (s.timers[t].session != x ==> s'.timers[t] == s.timers[t]))
    && (forall t :: |s.timers| <= t < |s'.timers| ==> s'.timers[t].session == x)
  }

  ghost predicate OthersKeepClaims(s: State, s': State, x: nat)
    requires x < |s.all|
  {
    forall id :: id != s.all[x].config.id ==> Claims(s', id) == Claims(s, id)
  }

  lemma DistinctIds(s: State, x: nat, y: nat)
    requires TableInv(s) && InTable(s, x) && InTable(s, y) && x != y
    ensures s.all[x].config.id != s.all[y].config.id
  {
  }

  lemma BookkeepingLocal(s: State, s': State, x: nat)
    requires Inv(s) && InTable(s, x)
    requires s'.sessions == s.sessions && s'.closed == s.closed && s'.now == s.now
    requires s'.launches == s.launches && s'.cleanups == s.cleanups
    requires |s'.all| == |s.all| && s'.all == s.all[x := s'.all[x]] && SameOwnership(s.all[x], s'.all[x])
    requires LocalTimers(s, s', x) && OthersKeepClaims(s, s', x)
    ensures Local(s, s', x)
  {
    assert forall y :: InTable(s', y) <==> InTable(s, y);
    forall y | 0 <= y < |s'.all| && y != x ensures Untouched(s, s', y) {
      if InTable(s, y) { DistinctIds(s, x, y); }
    }
  }

  lemma BookkeepingKeepsInv(s: State, s': State, x: nat)
    requires Inv(s) && InTable(s, x)
    requires s'.sessions == s.sessions && s'.closed == s.closed && s'.now == s.now
    requires s'.launches == s.launches && s'.cleanups == s.cleanups
    requires |s'.all| == |s.all| && s'.all == s.all[x := s'.all[x]] && SameOwnership(s.all[x], s'.all[x])
    requires LocalTimers(s, s', x) && OthersKeepClaims(s, s', x)
    requires IdleInv(s', x) && ClaimsInv(s', x)
    ensures Inv(s')
  {
    BookkeepingLocal(s, s', x);
    assert SessionInv(s, x);
    forall l | Own(s', x, l) ensures LaunchInv(s', x, l) {
      assert LaunchInv(s, x, l);
      CleanupsGrow(s, s', l);
    }
    SameFailuresKeepOrder(s, s', x);
    OneSession(s, s', x);
  }

  lemma ClaimKeepsInv(s: State, x: nat)
    requires Inv(s) && InTable(s, x) && s.all[x].client.Some?
    ensures Inv(Claim(s, x))
  {
    assert SessionInv(s, x);
    BookkeepingKeepsInv(s, Claim(s, x), x);
  }

  lemma MarkKeepsInv(s: State, x: nat)
    requires Inv(s) && InTable(s, x)
    ensures Inv(SetSession(s, x, s.all[x].(stale := true)))
  {
    assert SessionInv(s, x);
    BookkeepingKeepsInv(s, SetSession(s, x, s.all[x].(stale := true)), x);
  }

  // ----- leaving the table -----

  lemma RemoveLocal(s: State, s': State, x: nat)
    requires Inv(s) && InTable(s, x)
    requires s'.sessions == s.sessions - {s.all[x].config.id} && s'.closed == s.closed && s'.now == s.now
    requires s'.launches == Dispose(s.launches, Held(s, x)) && s'.cleanups == s.cleanups
    requires |s'.all| == |s.all| && s'.all == s.all[x := s'.all[x]] && SameOwnership(s.all[x], s'.all[x])
    requires LocalTimers(s, s', x) && OthersKeepClaims(s, s', x)
    ensures Local(s, s', x) && !InTable(s', x)
  {
    assert SessionInv(s, x);
    assert forall l: nat :: Refers(Held(s, x), l) ==> Own(s, x, l);
    OnlyItsLaunchesAreDisposed(s, s', x);
    forall y | 0 <= y < |s'.all| && y != x ensures Untouched(s, s', y) {
      if InTable(s, y) { DistinctIds(s, x, y); }
    }
  }

  lemma OnlyItsLaunchesAreDisposed(s: State, s': State, x: nat)
    requires x < |s.all| && s'.launches == Dispose(s.launches, Held(s, x))
    requires forall l: nat :: Refers(Held(s, x), l) ==> Own(s, x, l)
    ensures forall l :: 0 <= l < |s.launches| && s.launches[l].session != x ==> s'.launches[l] == s.launches[l]
    ensures forall y, l :: Own(s', y, l) <==> Own(s, y, l)
  {
    forall l | 0 <= l < |s.launches| && s.launches[l].session != x ensures s'.launches[l] == s.launches[l] {
      assert !Refers(Held(s, x), l);
    }
  }

  /** A session leaves the table and everything it held is disposed of at once. */
  lemma RemoveKeepsInv(s: State, s': State, x: nat)
    requires Inv(s) && InTable(s, x)
    requires s'.sessions == s.sessions - {s.all[x].config.id} && s'.closed == s.closed && s'.now == s.now
    requires s'.launches == Dispose(s.launches, Held(s, x)) && s'.cleanups == s.cleanups
    requires |s'.all| == |s.all| && s'.all == s.all[x := s'.all[x]] && SameOwnership(s.all[x], s'.all[x])
    requires LocalTimers(s, s', x) && OthersKeepClaims(s, s', x)
    ensures Inv(s')
  {
    RemoveLocal(s, s', x);
    assert SessionInv(s, x);
    forall l | Own(s', x, l) ensures LaunchInv(s', x, l) {
      assert LaunchInv(s, x, l);
      CleanupsGrow(s, s', l);
    }
    SameFailuresKeepOrder(s, s', x);
    OneSession(s, s', x);
  }

  lemma TimerFiresKeepsInv(s: State, t: nat)
    requires Inv(s) && Enabled(s, TimerFires(t))
    ensures Inv(Next(s, TimerFires(t)))
  {
    var s' := Next(s, TimerFires(t));
    var x := s.timers[t].session;
    assert SessionInv(s, x);
    TimerKeepsInv(s, s', x);
  }

  /** Only timers of x have changed, and its idle timer is still on its way. */
  lemma TimerKeepsInv(s: State, s': State, x: nat)
    requires Inv(s) && x < |s.all| && s' == s.(timers := s'.timers) && LocalTimers(s, s', x)
    requires |s'.timers| == |s.timers|
    requires IdleInv(s', x)
    ensures Inv(s')
  {
    assert SessionInv(s, x);
    LocalStep(s, s', x);
    forall l | Own(s', x, l) ensures LaunchInv(s', x, l) {
      assert LaunchInv(s, x, l);
      CleanupsGrow(s, s', l);
    }
    SameFailuresKeepOrder(s, s', x);
    OneSession(s, s', x);
  }

  lemma IdleStopKeepsInv(s: State, t: nat)
    requires Inv(s) && Enabled(s, IdleStop(t))
    ensures Inv(IdleStep(s, t))
  {
    var s' := IdleStep(s, t);
    var x := s.timers[t].session;
    assert SessionInv(s, x);
    if !InTable(s, x) || s.all[x].refs != 0 {
      TimerKeepsInv(s, s', x);
    } else {
      RemoveKeepsInv(s, s', x);
    }
  }

  lemma InvalidateKeepsInv(s: State, id: string)
    requires Inv(s)
    ensures Inv(InvalidateStep(s, id))
  {
    if id in s.sessions {
      var x := s.sessions[id];
      assert InTable(s, x) && SessionInv(s, x);
      if s.all[x].refs == 0 {
        RemoveKeepsInv(s, InvalidateStep(s, id), x);
      } else {
        MarkKeepsInv(s, x);
      }
    }
  }

  lemma UnknownReleaseKeepsInv(s: State, id: string)
    requires Inv(s) && id !in s.sessions
    ensures Inv(ReleaseStep(s, id))
  {
    var s' := ReleaseStep(s, id);
    forall y | 0 <= y < |s.all| ensures Untouched(s, s', y) { }
    OneSession(s, s', |s.all|);
  }

  lemma LastReleaseKeepsInv(s: State, id: string)
    requires Inv(s) && id in s.sessions && s.all[s.sessions[id]].refs == 1 && s.all[s.sessions[id]].stale
    ensures Inv(ReleaseStep(s, id))
  {
    assert InTable(s, s.sessions[id]) && SessionInv(s, s.sessions[id]);
    RemoveKeepsInv(s, ReleaseStep(s, id), s.sessions[id]);
  }

  lemma KnownReleaseKeepsInv(s: State, id: string)
    requires Inv(s) && id in s.sessions && !(s.all[s.sessions[id]].refs == 1 && s.all[s.sessions[id]].stale)
    ensures Inv(ReleaseStep(s, id))
  {
    assert InTable(s, s.sessions[id]) && SessionInv(s, s.sessions[id]);
    BookkeepingKeepsInv(s, ReleaseStep(s, id), s.sessions[id]);
  }

  lemma ReleaseKeepsInv(s: State, id: string)
    requires Inv(s)
    ensures Inv(ReleaseStep(s, id))
  {
    if id !in s.sessions {
      UnknownReleaseKeepsInv(s, id);
    } else if s.all[s.sessions[id]].refs == 1 && s.all[s.sessions[id]].stale {
      LastReleaseKeepsInv(s, id);
    } else {
      KnownReleaseKeepsInv(s, id);
    }
  }

  // ----- launching -----

  lemma RelaunchLocal(s: State, s': State, x: nat, session: Session)
    requires Inv(s) && InTable(s, x) && session.config.id == s.all[x].config.id
    requires s' == s.(all := s.all[x := session], launches := s.launches + [NewLaunch(s, x)])
    ensures Local(s, s', x)
  {
    assert forall l :: 0 <= l < |s.launches| ==> s'.launches[l] == s.launches[l];
    assert forall y :: InTable(s', y) <==> InTable(s, y);
    forall y | 0 <= y < |s'.all| && y != x ensures Untouched(s, s', y) {
      assert forall l :: Own(s', y, l) <==> Own(s, y, l);
    }
  }

  lemma RelaunchKeepsLaunches(s: State, s': State, x: nat, cfg: Config)
    requires Inv(s) && InTable(s, x) && s.all[x].config == cfg
    requires s.all[x].client.None? && s.all[x].starting.None?
    requires s.all[x].nextStart.Some? ==> s.now >= s.all[x].nextStart.value
    requires s' == Relaunched(s, x, cfg)
    ensures LaunchesInv(s', x) && OrderInv(s', x)
  {
    assert SessionInv(s, x);
    assert InTable(s', x);
    assert forall l :: 0 <= l < |s.launches| ==> s'.launches[l] == s.launches[l];
    forall l | Own(s', x, l) ensures LaunchInv(s', x, l) {
      if l < |s.launches| {
        assert LaunchInv(s, x, l);
        CleanupsGrow(s, s', l);
      }
    }
    forall j, k | Own(s', x, j) && Own(s', x, k) && j < k ensures BackedOff(s'.launches[j], s'.launches[k]) {
      assert Own(s, x, j) && LaunchInv(s, x, j);
      if k < |s.launches| { assert BackedOff(s.launches[j], s.launches[k]); }
    }
  }

  lemma RelaunchKeepsInv(s: State, s': State, x: nat, cfg: Config)
    requires Inv(s) && InTable(s, x) && s.all[x].config == cfg
    requires s.all[x].client.None? && s.all[x].starting.None?
    requires s.all[x].nextStart.Some? ==> s.now >= s.all[x].nextStart.value
    requires s' == Relaunched(s, x, cfg)
    ensures Inv(s')
  {
    assert SessionInv(s, x);
    RelaunchLocal(s, s', x, s'.all[x]);
    RelaunchKeepsLaunches(s, s', x, cfg);
    assert forall l :: 0 <= l < |s.launches| ==> s'.launches[l] == s.launches[l];
    OneSession(s, s', x);
  }

  lemma NewSessionLocal(s: State, cfg: Config)
    requires Inv(s) && !s.closed && cfg.id !in s.sessions
    ensures Local(s, Inserted(s, cfg), |s.all|)
  {
    var s', x := Inserted(s, cfg), |s.all|;
    assert forall y :: 0 <= y < x ==> s'.all[y] == s.all[y];
    assert forall l :: 0 <= l < |s.launches| ==> s'.launches[l] == s.launches[l];
    forall y | 0 <= y < |s'.all| && y != x ensures Untouched(s, s', y) {
      assert forall l :: Own(s', y, l) <==> Own(s, y, l);
    }
  }

  lemma NewSessionKeepsInv(s: State, s': State, cfg: Config)
    requires Inv(s) && !s.closed && cfg.id !in s.sessions
    requires s' == Inserted(s, cfg)
    ensures Inv(s')
  {
    var x := |s.all|;
    assert forall l :: Own(s', x, l) <==> l == |s.launches|;
    NewSessionLocal(s, cfg);
    OneSession(s, s', x);
  }

  lemma ClientKeepsInv(s: State, cfg: Config)
    requires Inv(s)
    ensures Inv(ClientStep(s, cfg))
  {
    var s' := ClientStep(s, cfg);
    if !s.closed {
      if cfg.id !in s.sessions {
        NewSessionKeepsInv(s, s', cfg);
      } else {
        var x := s.sessions[cfg.id];
        assert InTable(s, x) && SessionInv(s, x);
        if s.all[x].stale || s.all[x].config != cfg {
          if s.all[x].refs != 0 { MarkKeepsInv(s, x); } else { RemoveKeepsInv(s, s', x); }
        } else if s.all[x].client.Some? {
          ClaimKeepsInv(s, x);
        } else if s' != s {
          RelaunchKeepsInv(s, s', x, cfg);
        }
      }
    }
  }

  // ----- cleanups and shutdown -----

  lemma DisposeKeepsLaunch(s: State, s': State, c: Cleanup, x: nat, l: nat)
    requires x < |s.all| && Own(s, x, l) && LaunchInv(s, x, l) && CleanupInv(s, x) && c in s.cleanups
    requires s' == s.(launches := Dispose(s.launches, c), cleanups := s.cleanups - {c})
    ensures LaunchInv(s', x, l)
  {
    if AwaitsKill(s, l) && c.process != Some(l) {
      var d :| d in s.cleanups && d.process == Some(l);
      assert d in s'.cleanups;
    }
    if AwaitsClose(s, l) && c.client != Some(l) {
      var d :| d in s.cleanups && d.client == Some(l);
      assert d in s'.cleanups;
    }
    if AwaitsCancel(s, l) && c.cancel != Some(l) {
      var d :| d in s.cleanups && d.cancel == Some(l);
      assert d in s'.cleanups;
    }
    assert Refers(c, l) ==> s.launches[l].phase == Done || !InTable(s, x);
  }

  lemma RunCleanupKeepsInv(s: State, c: Cleanup)
    requires Inv(s) && c in s.cleanups
    ensures Inv(Next(s, RunCleanup(c)))
  {
    var s' := Next(s, RunCleanup(c));
    forall x | 0 <= x < |s'.all| ensures SessionInv(s', x) {
      assert SessionInv(s, x);
      assert forall l :: Own(s', x, l) <==> Own(s, x, l);
      forall l | Own(s', x, l) ensures LaunchInv(s', x, l) {
        DisposeKeepsLaunch(s, s', c, x, l);
      }
      SameFailuresKeepOrder(s, s', x);
      assert HolderInv(s', x) && ChannelInv(s', x) && CleanupInv(s', x);
    }
  }

  lemma ClosedLaunch(s: State, x: nat, l: nat)
    requires Inv(s) && !s.closed && x < |s.all| && Own(s, x, l)
    ensures Own(CloseStep(s), x, l) && LaunchInv(CloseStep(s), x, l)
  {
    var s' := CloseStep(s);
    assert SessionInv(s, x) && LaunchInv(s, x, l);
    CleanupsGrow(s, s', l);
    assert InTable(s, x) ==> Held(s, x) in s'.cleanups;
  }

  lemma ClosedSession(s: State, x: nat)
    requires Inv(s) && !s.closed && x < |s.all|
    ensures SessionInv(CloseStep(s), x)
  {
    var s' := CloseStep(s);
    assert SessionInv(s, x);
    assert forall l :: Own(s', x, l) <==> Own(s, x, l);
    forall l | Own(s', x, l) ensures LaunchInv(s', x, l) {
      ClosedLaunch(s, x, l);
    }
    SameFailuresKeepOrder(s, s', x);
    assert ChannelInv(s', x);
  }

  lemma CloseKeepsInv(s: State)
    requires Inv(s)
    ensures Inv(CloseStep(s))
  {
    if !s.closed {
      var s' := CloseStep(s);
      forall x | 0 <= x < |s'.all| ensures SessionInv(s', x) {
        ClosedSession(s, x);
      }
      forall c, l: nat | c in s'.cleanups && Refers(c, l) ensures l < |s'.launches| {
        if c !in s.cleanups {
          var x :| 0 <= x < |s.all| && InTable(s, x) && c == Held(s, x);
          assert SessionInv(s, x);
        }
      }
    }
  }

  // ----- all of them -----

  lemma NextKeepsInv(s: State, step: Step)
    requires Inv(s)
    ensures Inv(Next(s, step))
  {
    if Enabled(s, step) {
      match step
      case ClientCall(cfg) => ClientKeepsInv(s, Normalize(cfg));
      case StartupResult(l) =>
        if ResultStep(s, l) != s { ClaimKeepsInv(s, s.launches[l].session); }
      case Spawn(l) => SpawnKeepsInv(s, l);
      case LaunchFails(l) => FailKeepsInv(s, l, None);
      case Publish(l) => PublishKeepsInv(s, l);
      case StartSucceeds(l) => SucceedKeepsInv(s, l);
      case StartFails(l) => FailKeepsInv(s, l, Some(l));
      case ProcessExits(l) => ExitKeepsInv(s, l);
      case WatchReturns(l) => WatchKeepsInv(s, l);
      case Release(id) => ReleaseKeepsInv(s, id);
      case Invalidate(id) => InvalidateKeepsInv(s, id);
      case TimerFires(t) => TimerFiresKeepsInv(s, t);
      case IdleStop(t) => IdleStopKeepsInv(s, t);
      case Close => CloseKeepsInv(s);
      case RunCleanup(c) => RunCleanupKeepsInv(s, c);
      case Tick(d) => TickKeepsInv(s, d);
    }
  }

  lemma {:induction false} ExecKeepsInv(s: State, steps: seq<Step>)
    requires Inv(s)
    ensures Inv(Exec(s, steps))
    decreases |steps|
  {
    if steps != [] {
      NextKeepsInv(s, steps[0]);
      ExecKeepsInv(Next(s, steps[0]), steps[1..]);
    }
  }

  lemma InvAlways(now: int, steps: seq<Step>)
    ensures Inv(Exec(Initial(now), steps))
  {
    ExecKeepsInv(Initial(now), steps);
  }
}
