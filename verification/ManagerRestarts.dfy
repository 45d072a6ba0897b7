/** How long the session manager waits: before it restarts clangd, and before it stops an idle one. */
module ManagerRestarts {
  import opened Collections
  import opened ManagerModel
  import opened ManagerInvariant
  import opened ManagerProofs
  import opened ManagerClaims
  import opened ManagerDismissal
  import opened ManagerOutcomes
  import opened ManagerReport
  import opened ManagerTheorems

  /** The wait doubles from one second with each failure, up to sixteen. */
  lemma BackoffDoubles(failures: nat)
    requires failures >= 1
    ensures Backoff(1) == SECOND
    ensures failures < 5 ==> Backoff(failures + 1) == 2 * Backoff(failures)
    ensures failures >= 5 ==> Backoff(failures) == 16 * SECOND
  {
  }

  // ----- failures are counted -----

  function FailedFor(x: nat): Launch -> nat {
    (launch: Launch) => if launch.session == x && launch.failure.Some? then 1 else 0
  }

  predicate EndsWait(launch: Launch, end: int) {
    launch.failure.Some? && launch.failure.value.count >= 1
    && launch.failure.value.at + Backoff(launch.failure.value.count) == end
  }

  /** The session counts its failed launches, and waits for the end of the wait after one of them. */
  ghost predicate Counted(s: State, x: nat)
    requires x < |s.all|
  {
    && s.all[x].failures == Total(FailedFor(x), s.launches)
    && (s.all[x].nextStart.Some? ==>
          exists k :: Own(s, x, k) && EndsWait(s.launches[k], s.all[x].nextStart.value))
  }

  ghost predicate AllCounted(s: State) {
    forall x :: 0 <= x < |s.all| ==> Counted(s, x)
  }

  predicate SameFailure(before: Launch, after: Launch) {
    after.session == before.session && after.failure == before.failure
  }

  /** No launch has failed meanwhile, and at most one has been added. */
  predicate NoFailure(before: seq<Launch>, after: seq<Launch>) {
    && |before| <= |after| <= |before| + 1
    && (forall l :: 0 <= l < |before| ==> SameFailure(before[l], after[l]))
    && (forall l :: |before| <= l < |after| ==> after[l].failure.None?)
  }

  lemma SameTotal(weight: Launch -> nat, first: seq<Launch>, second: seq<Launch>)
    requires |first| == |second| && forall l :: 0 <= l < |first| ==> weight(first[l]) == weight(second[l])
    ensures Total(weight, first) == Total(weight, second)
  {
    TotalMonotone(weight, first, second);
    TotalMonotone(weight, second, first);
  }

  lemma NoFailureCountsNothing(before: seq<Launch>, after: seq<Launch>, x: nat)
    requires NoFailure(before, after)
    ensures Total(FailedFor(x), after) == Total(FailedFor(x), before)
  {
    var n := |before|;
    SameTotal(FailedFor(x), before, after[..n]);
    if |after| > n {
      TotalAppend(FailedFor(x), after[..n], after[n]);
      assert after == after[..n] + [after[n]];
    } else {
      assert after[..n] == after;
    }
  }

  lemma CountedFrame(s: State, s': State, x: nat)
    requires x < |s.all| && x < |s'.all| && Counted(s, x) && NoFailure(s.launches, s'.launches)
    requires s'.all[x].failures == s.all[x].failures && s'.all[x].nextStart == s.all[x].nextStart
    ensures Counted(s', x)
  {
    NoFailureCountsNothing(s.launches, s'.launches, x);
    if s.all[x].nextStart.Some? {
      var k :| Own(s, x, k) && EndsWait(s.launches[k], s.all[x].nextStart.value);
      assert Own(s', x, k) && EndsWait(s'.launches[k], s'.all[x].nextStart.value);
    }
  }

  lemma NewSessionCounted(s: State, s': State, x: nat)
    requires TableInv(s) && x == |s.all| && x < |s'.all| && NoFailure(s.launches, s'.launches)
    requires s'.all[x].failures == 0 && s'.all[x].nextStart.None?
    ensures Counted(s', x)
  {
    NoFailureCountsNothing(s.launches, s'.launches, x);
    TotalZero(FailedFor(x), s.launches);
  }

  /** One launch of the session has failed, and nothing else is different in what is counted. */
  ghost predicate FailsOnce(s: State, s': State, x: nat, l: nat) {
    && x < |s.all| && |s'.all| == |s.all| && Own(s, x, l) && |s'.launches| == |s.launches|
    && s.launches[l].failure.None? && s'.launches[l].session == x
    && s'.launches[l].failure == Some(Failure(s.now, s.all[x].failures + 1))
    && (forall k :: 0 <= k < |s.launches| && k != l ==> SameFailure(s.launches[k], s'.launches[k]))
    && s'.all[x].failures == s.all[x].failures + 1
    && s'.all[x].nextStart == Some(s.now + Backoff(s.all[x].failures + 1))
    && (forall y :: 0 <= y < |s.all| && y != x ==> s'.all[y] == s.all[y])
  }

  lemma FailureCountedOnce(s: State, s': State, x: nat, l: nat)
    requires AllCounted(s) && FailsOnce(s, s', x, l)
    ensures AllCounted(s')
  {
    FailureCounted(s, s', x, l);
    forall y | 0 <= y < |s'.all| ensures Counted(s', y) {
      if y != x { OthersCounted(s, s', y, x, l); }
    }
  }

  lemma FailureCounted(s: State, s': State, x: nat, l: nat)
    requires FailsOnce(s, s', x, l) && Counted(s, x)
    ensures Counted(s', x)
  {
    var failed := s.launches[l := s'.launches[l]];
    TotalUpdate(FailedFor(x), s.launches, l, s'.launches[l]);
    SameTotal(FailedFor(x), failed, s'.launches);
    assert Own(s', x, l) && EndsWait(s'.launches[l], s'.all[x].nextStart.value);
  }

  lemma OthersCounted(s: State, s': State, y: nat, x: nat, l: nat)
    requires FailsOnce(s, s', x, l) && y < |s.all| && Counted(s, y) && y != x
    ensures Counted(s', y)
  {
    SameTotal(FailedFor(y), s.launches, s'.launches);
    if s.all[y].nextStart.Some? {
      var k :| Own(s, y, k) && EndsWait(s.launches[k], s.all[y].nextStart.value);
      assert Own(s', y, k) && EndsWait(s'.launches[k], s'.all[y].nextStart.value);
    }
  }

  lemma RecordedFailureCounted(s: State, l: nat, owned: Option<nat>)
    requires Inv(s) && AllCounted(s) && CanFail(s, l, owned) && InTable(s, s.launches[l].session)
    ensures AllCounted(RecordedFailure(s, l, owned))
  {
    var s', x := RecordedFailure(s, l, owned), s.launches[l].session;
    assert SessionInv(s, x) && Own(s, x, l) && LaunchInv(s, x, l);
    FailureCountedOnce(s, s', x, l);
  }

  lemma RecordedExitCounted(s: State, l: nat)
    requires Inv(s) && AllCounted(s) && Enabled(s, WatchReturns(l)) && InTable(s, s.launches[l].session)
    ensures AllCounted(RecordedExit(s, l))
  {
    var s', x := RecordedExit(s, l), s.launches[l].session;
    assert SessionInv(s, x) && Own(s, x, l) && LaunchInv(s, x, l);
    FailureCountedOnce(s, s', x, l);
  }

  /** No step but a recorded failure or crash touches what is counted. */
  predicate FailsNone(s: State, s': State) {
    && NoFailure(s.launches, s'.launches) && |s.all| <= |s'.all| <= |s.all| + 1
    && (forall x :: 0 <= x < |s.all| ==>
          s'.all[x].failures == s.all[x].failures && s'.all[x].nextStart == s.all[x].nextStart)
    && (forall x :: |s.all| <= x < |s'.all| ==> s'.all[x].failures == 0 && s'.all[x].nextStart.None?)
  }

  lemma FrameCounted(s: State, s': State)
    requires TableInv(s) && AllCounted(s) && FailsNone(s, s')
    ensures AllCounted(s')
  {
    forall x | 0 <= x < |s'.all| ensures Counted(s', x) {
      if x < |s.all| { CountedFrame(s, s', x); } else { NewSessionCounted(s, s', x); }
    }
  }

  lemma ClientFailsNone(s: State, cfg: Config)
    requires TableInv(s)
    ensures FailsNone(s, ClientStep(s, cfg))
  {
    if cfg.id in s.sessions { MarkingFailsNone(s, s.sessions[cfg.id]); }
    if !s.closed && !NotAsked(s, cfg) { StartingFailsNone(s, cfg); }
  }

  lemma StartingFailsNone(s: State, cfg: Config)
    requires TableInv(s)
    ensures FailsNone(s, Inserted(s, cfg))
    ensures cfg.id in s.sessions ==> FailsNone(s, Relaunched(s, s.sessions[cfg.id], cfg))
  {
  }

  lemma MarkingFailsNone(s: State, x: nat)
    requires x < |s.all|
    ensures var marked := SetSession(s, x, s.all[x].(stale := true));
      FailsNone(s, marked) && FailsNone(s, Retire(marked, x)) && FailsNone(s, Claim(s, x))
  {
  }

  lemma ReleaseFailsNone(s: State, id: string)
    requires TableInv(s)
    ensures FailsNone(s, ReleaseStep(s, id))
  {
  }

  lemma InvalidateFailsNone(s: State, id: string)
    requires TableInv(s)
    ensures FailsNone(s, InvalidateStep(s, id))
  {
  }

  lemma EventsFailNone(s: State, step: Step)
    requires TableInv(s) && !IsCall(step) && Worker(step).None?
    ensures FailsNone(s, Next(s, step))
  {
  }

  lemma AbandonFailsNone(s: State, l: nat, owned: Option<nat>)
    requires l < |s.launches| && s.launches[l].session < |s.all|
    ensures FailsNone(s, AbandonedStartup(s, l, owned))
  {
  }

  lemma FailCounted(s: State, l: nat, owned: Option<nat>)
    requires Inv(s) && AllCounted(s) && CanFail(s, l, owned)
    ensures AllCounted(FailStep(s, l, owned))
  {
    if s.closed || !InTable(s, s.launches[l].session) {
      AbandonFailsNone(s, l, owned);
      FrameCounted(s, AbandonedStartup(s, l, owned));
    } else {
      RecordedFailureCounted(s, l, owned);
    }
  }

  lemma SuccessCounted(s: State, l: nat)
    requires Inv(s) && AllCounted(s) && Enabled(s, StartSucceeds(l))
    ensures AllCounted(SucceedStep(s, l))
  {
    if s.closed || !InTable(s, s.launches[l].session) {
      FailCounted(s, l, Some(l));
    } else {
      assert FailsNone(s, OfferedClient(s, l));
      FrameCounted(s, OfferedClient(s, l));
    }
  }

  lemma CrashCounted(s: State, l: nat)
    requires Inv(s) && AllCounted(s) && Enabled(s, WatchReturns(l))
    ensures AllCounted(WatchStep(s, l))
  {
    if InTable(s, s.launches[l].session) {
      RecordedExitCounted(s, l);
    } else {
      FrameCounted(s, WatchStep(s, l));
    }
  }

  lemma PublishCounted(s: State, l: nat)
    requires Inv(s) && AllCounted(s) && Enabled(s, Publish(l))
    ensures AllCounted(PublishStep(s, l))
  {
    assert FailsNone(s, PublishStep(s, l));
    FrameCounted(s, PublishStep(s, l));
  }

  lemma GoroutinesCount(s: State, step: Step)
    requires Inv(s) && AllCounted(s) && Worker(step).Some? && Enabled(s, step)
    ensures AllCounted(Next(s, step))
  {
    match step
    case Spawn(_) => FrameCounted(s, Next(s, step));
    case LaunchFails(l) => FailCounted(s, l, None);
    case Publish(l) => PublishCounted(s, l);
    case StartSucceeds(l) => SuccessCounted(s, l);
    case StartFails(l) => FailCounted(s, l, Some(l));
    case WatchReturns(l) => CrashCounted(s, l);
  }

  lemma CallsCount(s: State, step: Step)
    requires Inv(s) && AllCounted(s) && IsCall(step)
    ensures AllCounted(Next(s, step))
  {
    match step
    case ClientCall(cfg) =>
      ClientFailsNone(s, Normalize(cfg));
      FrameCounted(s, ClientStep(s, Normalize(cfg)));
    case Release(id) =>
      ReleaseFailsNone(s, id);
      FrameCounted(s, ReleaseStep(s, id));
    case Invalidate(id) =>
      InvalidateFailsNone(s, id);
      FrameCounted(s, InvalidateStep(s, id));
  }

  lemma StepCounts(s: State, step: Step)
    requires Inv(s) && AllCounted(s)
    ensures AllCounted(Next(s, step))
  {
    if IsCall(step) {
      CallsCount(s, step);
    } else if Worker(step).None? {
      EventsFailNone(s, step);
      FrameCounted(s, Next(s, step));
    } else if Enabled(s, step) {
      GoroutinesCount(s, step);
    }
  }

  lemma {:induction false} RunCounts(s: State, steps: seq<Step>)
    requires Inv(s) && AllCounted(s)
    ensures AllCounted(Exec(s, steps))
    decreases |steps|
  {
    if steps != [] {
      NextKeepsInv(s, steps[0]);
      StepCounts(s, steps[0]);
      RunCounts(Next(s, steps[0]), steps[1..]);
    }
  }

  /** A session counts exactly its launches that failed or crashed. */
  lemma FailuresAreCounted(now: int, steps: seq<Step>, x: nat)
    requires x < |Exec(Initial(now), steps).all|
    ensures var s := Exec(Initial(now), steps);
      s.all[x].failures == Total(FailedFor(x), s.launches)
  {
    InvAlways(now, []);
    assert Inv(Initial(now));
    RunCounts(Initial(now), steps);
    assert Counted(Exec(Initial(now), steps), x);
  }

  /**
   A request that is not refused and finds neither a client nor a startup is turned away exactly
   while the wait after one of the session's failures has not passed.
   */
  lemma BackingOffExactlyWhen(now: int, steps: seq<Step>, config: Config)
    ensures var s := Exec(Initial(now), steps); var cfg := Normalize(config);
      Decide(s, cfg) == ErrBackingOff <==>
        && cfg.id in s.sessions && !Refused(now, steps, cfg)
        && SessionState(s, cfg.id) in {IsDegraded, IsAbsent}
        && StillWaiting(s, s.sessions[cfg.id])
  {
    var s, cfg := Exec(Initial(now), steps), Normalize(config);
    InvAlways(now, steps);
    InvAlways(now, []);
    assert Inv(Initial(now));
    RunCounts(Initial(now), steps);
    RefusedIsNotAsked(now, steps, cfg);
    if cfg.id in s.sessions { WaitingIsNextStart(s, s.sessions[cfg.id]); }
  }

  /** Some launch of the session has failed and its wait is not over. */
  ghost predicate StillWaiting(s: State, x: nat) {
    exists k :: Own(s, x, k) && s.launches[k].failure.Some? && InWait(s.now, s.launches[k].failure.value)
  }

  predicate InWait(now: int, failure: Failure) {
    failure.count >= 1 && now < failure.at + Backoff(failure.count)
  }

  lemma WaitingIsNextStart(s: State, x: nat)
    requires Inv(s) && AllCounted(s) && InTable(s, x)
    ensures StillWaiting(s, x) <==> s.all[x].nextStart.Some? && s.now < s.all[x].nextStart.value
  {
    assert SessionInv(s, x) && Counted(s, x);
    if k :| Own(s, x, k) && s.launches[k].failure.Some? && InWait(s.now, s.launches[k].failure.value) {
      assert LaunchInv(s, x, k);
    }
    if s.all[x].nextStart.Some? && s.now < s.all[x].nextStart.value {
      var k :| Own(s, x, k) && EndsWait(s.launches[k], s.all[x].nextStart.value);
      assert InWait(s.now, s.launches[k].failure.value);
    }
  }

  // ----- idle timers -----

  /** A timer that is still armed is the one its session refers to, as long as that is in the table. */
  ghost predicate ArmedAreOwn(s: State) {
    forall t :: 0 <= t < |s.timers| && s.timers[t].status == Armed && InTable(s, s.timers[t].session) ==>
      s.all[s.timers[t].session].timer == Some(t)
  }

  lemma RetireArms(s: State, x: nat)
    requires ArmedAreOwn(s) && x < |s.all|
    ensures ArmedAreOwn(Retire(s, x))
  {
  }

  lemma ClaimArms(s: State, x: nat)
    requires ArmedAreOwn(s) && x < |s.all|
    ensures ArmedAreOwn(Claim(s, x))
  {
  }

  lemma WritingArms(s: State, x: nat, session: Session)
    requires ArmedAreOwn(s) && x < |s.all|
    requires session.timer == s.all[x].timer && session.config.id == s.all[x].config.id
    ensures ArmedAreOwn(SetSession(s, x, session)) && ArmedAreOwn(ScheduleIdle(s, x, session))
  {
  }

  lemma StartingArms(s: State, cfg: Config)
    requires Inv(s) && ArmedAreOwn(s)
    ensures cfg.id !in s.sessions ==> ArmedAreOwn(Inserted(s, cfg))
    ensures cfg.id in s.sessions ==> ArmedAreOwn(Relaunched(s, s.sessions[cfg.id], cfg))
  {
  }

  lemma ClientArms(s: State, cfg: Config)
    requires Inv(s) && ArmedAreOwn(s)
    ensures ArmedAreOwn(ClientStep(s, cfg))
  {
    StartingArms(s, cfg);
    if cfg.id in s.sessions {
      var x := s.sessions[cfg.id];
      var marked := s.all[x].(stale := true);
      ClaimArms(s, x);
      WritingArms(s, x, marked);
      RetireArms(SetSession(s, x, marked), x);
    }
  }

  lemma DroppedArms(s: State, x: nat)
    requires ArmedAreOwn(s) && x < |s.all| && s.all[x].refs > 0
    ensures ArmedAreOwn(Dropped(s, x))
  {
    var released := s.all[x].(refs := s.all[x].refs - 1);
    WritingArms(s, x, released);
    RetireArms(SetSession(s, x, released), x);
  }

  lemma ReleaseArms(s: State, id: string)
    requires Inv(s) && ArmedAreOwn(s)
    ensures ArmedAreOwn(ReleaseStep(s, id))
  {
    if id in s.sessions && s.all[s.sessions[id]].refs > 0 { DroppedArms(Returned(s, id), s.sessions[id]); }
  }

  lemma InvalidateArms(s: State, id: string)
    requires Inv(s) && ArmedAreOwn(s)
    ensures ArmedAreOwn(InvalidateStep(s, id))
  {
    if id in s.sessions {
      var x := s.sessions[id];
      var marked := s.all[x].(stale := true);
      WritingArms(s, x, marked);
      RetireArms(SetSession(s, x, marked), x);
    }
  }

  lemma FailArms(s: State, l: nat, owned: Option<nat>)
    requires Inv(s) && ArmedAreOwn(s) && l < |s.launches| && s.launches[l].session < |s.all|
    ensures ArmedAreOwn(FailStep(s, l, owned))
  {
  }

  lemma SuccessArms(s: State, l: nat)
    requires Inv(s) && ArmedAreOwn(s) && Enabled(s, StartSucceeds(l))
    ensures ArmedAreOwn(SucceedStep(s, l))
  {
    if s.closed || !InTable(s, s.launches[l].session) { FailArms(s, l, Some(l)); } else { OfferArms(s, l); }
  }

  lemma OfferArms(s: State, l: nat)
    requires Inv(s) && ArmedAreOwn(s) && Enabled(s, StartSucceeds(l)) && InTable(s, s.launches[l].session)
    ensures ArmedAreOwn(OfferedClient(s, l))
  {
  }

  lemma GoroutinesArm(s: State, step: Step)
    requires Inv(s) && ArmedAreOwn(s) && Worker(step).Some? && Enabled(s, step)
    ensures ArmedAreOwn(Next(s, step))
  {
    match step
    case LaunchFails(l) => FailArms(s, l, None);
    case StartFails(l) => FailArms(s, l, Some(l));
    case StartSucceeds(l) => SuccessArms(s, l);
    case Publish(l) => PublishArms(s, l);
    case WatchReturns(l) => CrashArms(s, l);
    case _ =>
  }

  lemma PublishArms(s: State, l: nat)
    requires Inv(s) && ArmedAreOwn(s) && Enabled(s, Publish(l))
    ensures ArmedAreOwn(PublishStep(s, l))
  {
  }

  lemma CrashArms(s: State, l: nat)
    requires Inv(s) && ArmedAreOwn(s) && Enabled(s, WatchReturns(l))
    ensures ArmedAreOwn(WatchStep(s, l))
  {
  }

  lemma EventsArm(s: State, step: Step)
    requires Inv(s) && ArmedAreOwn(s) && Worker(step).None? && !IsCall(step)
    ensures ArmedAreOwn(Next(s, step))
  {
    match step
    case IdleStop(t) => if Enabled(s, step) { IdleArms(s, t); }
    case Close => CloseArms(s);
    case _ =>
  }

  lemma IdleArms(s: State, t: nat)
    requires Inv(s) && ArmedAreOwn(s) && Enabled(s, IdleStop(t))
    ensures ArmedAreOwn(IdleStep(s, t))
  {
  }

  lemma CloseArms(s: State)
    requires ArmedAreOwn(s)
    ensures ArmedAreOwn(CloseStep(s))
  {
  }

  lemma StepArms(s: State, step: Step)
    requires Inv(s) && ArmedAreOwn(s)
    ensures ArmedAreOwn(Next(s, step))
  {
    if IsCall(step) {
      CallsArm(s, step);
    } else if Worker(step).None? {
      EventsArm(s, step);
    } else if Enabled(s, step) {
      GoroutinesArm(s, step);
    }
  }

  lemma CallsArm(s: State, step: Step)
    requires Inv(s) && ArmedAreOwn(s) && IsCall(step)
    ensures ArmedAreOwn(Next(s, step))
  {
    match step
    case ClientCall(cfg) => ClientArms(s, Normalize(cfg));
    case Release(id) => ReleaseArms(s, id);
    case Invalidate(id) => InvalidateArms(s, id);
  }

  lemma {:induction false} RunArms(s: State, steps: seq<Step>)
    requires Inv(s) && ArmedAreOwn(s)
    ensures ArmedAreOwn(Exec(s, steps))
    decreases |steps|
  {
    if steps != [] {
      NextKeepsInv(s, steps[0]);
      StepArms(s, steps[0]);
      RunArms(Next(s, steps[0]), steps[1..]);
    }
  }

  /** A session in the table has at most one idle timer running, and none while somebody counts on it. */
  lemma OneIdleTimer(now: int, steps: seq<Step>, t: nat, u: nat)
    ensures var s := Exec(Initial(now), steps);
      Running(s, t) && Running(s, u) && s.timers[t].session == s.timers[u].session ==>
        t == u && s.all[s.timers[t].session].refs == 0
  {
    var s := Exec(Initial(now), steps);
    InvAlways(now, steps);
    InvAlways(now, []);
    assert Inv(Initial(now));
    RunArms(Initial(now), steps);
    if Running(s, t) { assert SessionInv(s, s.timers[t].session); }
  }

  predicate Running(s: State, t: nat) {
    t < |s.timers| && s.timers[t].status == Armed && InTable(s, s.timers[t].session)
  }
}
