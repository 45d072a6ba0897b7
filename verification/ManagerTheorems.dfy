/** What the session manager promises, stated over every run from its initial state. */
module ManagerTheorems {
  import opened Collections
  import opened ManagerModel
  import opened ManagerInvariant
  import opened ManagerProofs

  // ----- nothing is leaked -----

  /**
   In every reachable state, whoever has to end a launch can be named. A running process is
   local to a startup goroutine that has not published it, held by a session in the table, or
   waiting for a cleanup to kill it; likewise for open clients and live contexts.
   */
  lemma NothingIsLeaked(now: int, steps: seq<Step>, l: nat)
    requires l < |Exec(Initial(now), steps).launches|
    ensures var s := Exec(Initial(now), steps);
      var launch := s.launches[l];
      && launch.session < |s.all|
      && (launch.process == Running ==>
            || launch.phase == Spawned
            || (InTable(s, launch.session) && s.all[launch.session].process == Some(l))
            || exists c :: c in s.cleanups && c.process == Some(l))
      && (launch.client == Open ==>
            || launch.phase == Initializing
            || (InTable(s, launch.session) && s.all[launch.session].client == Some(l))
            || exists c :: c in s.cleanups && c.client == Some(l))
      && (!launch.canceled ==>
            || (InTable(s, launch.session) && s.all[launch.session].cancel == Some(l))
            || exists c :: c in s.cleanups && c.cancel == Some(l))
  {
    var s := Exec(Initial(now), steps);
    InvAlways(now, steps);
    var x := s.launches[l].session;
    assert SessionInv(s, x) && Own(s, x, l);
    assert LaunchInv(s, x, l);
  }

  /** Close has run, its cleanups are done, and no startup is in flight any more. */
  ghost predicate Settled(s: State) {
    s.closed && s.cleanups == {} && forall l :: 0 <= l < |s.launches| ==> !s.launches[l].InFlight()
  }

  lemma SettledIsQuiet(s: State)
    requires Inv(s) && Settled(s)
    ensures forall l :: 0 <= l < |s.launches| ==>
      s.launches[l].process != Running && s.launches[l].client != Open && s.launches[l].canceled
  {
    forall l | 0 <= l < |s.launches|
      ensures s.launches[l].process != Running && s.launches[l].client != Open && s.launches[l].canceled
    {
      var x := s.launches[l].session;
      assert SessionInv(s, x) && Own(s, x, l);
      assert LaunchInv(s, x, l);
    }
  }

  lemma {:induction false} SettledStays(s: State, steps: seq<Step>)
    requires Inv(s) && Settled(s)
    ensures Settled(Exec(s, steps))
    decreases |steps|
  {
    if steps != [] {
      NextKeepsInv(s, steps[0]);
      SettledStays(Next(s, steps[0]), steps[1..]);
    }
  }

  /** After Close and the startups it overtook have finished, no process runs and none ever will. */
  lemma NothingSurvivesClose(now: int, steps: seq<Step>, later: seq<Step>)
    requires Settled(Exec(Initial(now), steps))
    ensures var s := Exec(Exec(Initial(now), steps), later);
      forall l :: 0 <= l < |s.launches| ==>
        s.launches[l].process != Running && s.launches[l].client != Open && s.launches[l].canceled
  {
    var s := Exec(Initial(now), steps);
    InvAlways(now, steps);
    SettledStays(s, later);
    ExecKeepsInv(s, later);
    SettledIsQuiet(Exec(s, later));
  }

  // ----- single flight -----

  lemma EarlierIsDone(s: State, x: nat, k: nat, l: nat)
    requires Inv(s) && x < |s.all| && Own(s, x, k) && Own(s, x, l)
    ensures k < l ==> s.launches[k].phase == Done
  {
    assert SessionInv(s, x);
    assert k < l ==> BackedOff(s.launches[k], s.launches[l]);
  }

  /**
   At most one launch of a session is not over; a session in the table is starting exactly
   when one of its startups is in flight, and a session with a client has that client's process.
   */
  lemma SingleFlight(now: int, steps: seq<Step>, x: nat)
    requires x < |Exec(Initial(now), steps).all|
    ensures var s := Exec(Initial(now), steps); var session := s.all[x];
      && (forall k, l :: Own(s, x, k) && Own(s, x, l) && s.launches[k].phase != Done && s.launches[l].phase != Done ==>
        k == l)
      && (InTable(s, x) ==>
            && (forall l :: Own(s, x, l) ==> (s.launches[l].InFlight() <==> session.starting == Some(l)))
            && (session.starting.Some? ==> Own(s, x, session.starting.value))
            && (session.client.Some? ==>
                  && Own(s, x, session.client.value) && s.launches[session.client.value].client == Open
                  && session.process == session.client && session.starting.None?))
  {
    var s := Exec(Initial(now), steps);
    InvAlways(now, steps);
    assert SessionInv(s, x);
    forall k, l | Own(s, x, k) && Own(s, x, l) && s.launches[k].phase != Done && s.launches[l].phase != Done
      ensures k == l
    {
      EarlierIsDone(s, x, k, l);
      EarlierIsDone(s, x, l, k);
    }
    if InTable(s, x) {
      forall l | Own(s, x, l) ensures s.launches[l].InFlight() <==> s.all[x].starting == Some(l) {
        assert LaunchInv(s, x, l);
      }
      if s.all[x].client.Some? { assert LaunchInv(s, x, s.all[x].client.value); }
    }
  }

  /** No startup channel is closed twice: whatever a session would close is still open. */
  lemma ChannelsCloseOnce(now: int, steps: seq<Step>, x: nat)
    requires x < |Exec(Initial(now), steps).all|
    ensures var s := Exec(Initial(now), steps);
      s.all[x].starting.Some? ==>
        Own(s, x, s.all[x].starting.value) && !s.launches[s.all[x].starting.value].woken
  {
    InvAlways(now, steps);
    assert SessionInv(Exec(Initial(now), steps), x);
  }

  /**
   Whether a startup that is over has woken its waiters: always, unless its session left the
   table without Close before the process was published. Then nobody ever wakes them.
   */
  lemma FinishedStartupsWake(now: int, steps: seq<Step>, l: nat, later: seq<Step>)
    requires l < |Exec(Initial(now), steps).launches|
    ensures var s := Exec(Initial(now), steps); var launch := s.launches[l];
      && launch.session < |s.all|
      && (launch.phase == Done && InTable(s, launch.session) ==> launch.woken)
      && (launch.phase == Watching ==> launch.woken || !InTable(s, launch.session))
      && (launch.phase == Done && !launch.woken ==>
            l < |Exec(s, later).launches| && !Exec(s, later).launches[l].woken)
  {
    var s := Exec(Initial(now), steps);
    InvAlways(now, steps);
    var x := s.launches[l].session;
    assert SessionInv(s, x) && Own(s, x, l);
    assert LaunchInv(s, x, l);
    if s.launches[l].phase == Done && !s.launches[l].woken {
      assert !InTable(s, x);
      AsleepForever(s, later, l);
    }
  }

  /** The goroutine that a step is an action of, if any. */
  function Worker(step: Step): Option<nat> {
    match step
    case Spawn(l) => Some(l)
    case LaunchFails(l) => Some(l)
    case Publish(l) => Some(l)
    case StartSucceeds(l) => Some(l)
    case StartFails(l) => Some(l)
    case WatchReturns(l) => Some(l)
    case _ => None
  }

  /** What a launch has of its own, whatever becomes of its process and client. */
  predicate SameGoroutine(before: Launch, after: Launch) {
    after.session == before.session && after.phase == before.phase && after.woken == before.woken
  }

  lemma ClientMovesNoLaunch(s: State, cfg: Config, l: nat)
    requires l < |s.launches|
    ensures l < |ClientStep(s, cfg).launches| && SameGoroutine(s.launches[l], ClientStep(s, cfg).launches[l])
  {
  }

  lemma ReleaseMovesNoLaunch(s: State, id: string, l: nat)
    requires l < |s.launches|
    ensures l < |ReleaseStep(s, id).launches| && SameGoroutine(s.launches[l], ReleaseStep(s, id).launches[l])
  {
  }

  lemma InvalidateMovesNoLaunch(s: State, id: string, l: nat)
    requires l < |s.launches|
    ensures l < |InvalidateStep(s, id).launches| && SameGoroutine(s.launches[l], InvalidateStep(s, id).launches[l])
  {
  }

  lemma CallersMoveNoLaunch(s: State, step: Step, l: nat)
    requires l < |s.launches| && IsCall(step)
    ensures l < |Next(s, step).launches| && SameGoroutine(s.launches[l], Next(s, step).launches[l])
  {
    match step
    case ClientCall(cfg) => ClientMovesNoLaunch(s, Normalize(cfg), l);
    case Release(id) => ReleaseMovesNoLaunch(s, id, l);
    case Invalidate(id) => InvalidateMovesNoLaunch(s, id, l);
  }

  predicate IsCall(step: Step) {
    step.ClientCall? || step.Release? || step.Invalidate?
  }

  lemma EventsMoveNoLaunch(s: State, step: Step, l: nat)
    requires l < |s.launches| && !IsCall(step) && Worker(step).None?
    ensures l < |Next(s, step).launches|
    ensures Next(s, step).launches[l].session == s.launches[l].session
    ensures Next(s, step).launches[l].phase == s.launches[l].phase
  {
  }

  lemma GoroutinesMoveTheirOwn(s: State, step: Step, l: nat)
    requires l < |s.launches| && Worker(step).Some?
    ensures l < |Next(s, step).launches|
    ensures Next(s, step).launches[l].session == s.launches[l].session
    ensures Worker(step) != Some(l) ==> Next(s, step).launches[l].phase == s.launches[l].phase
  {
    if Enabled(s, step) {
      match step
      case LaunchFails(k) => FailMovesItsOwn(s, k, None, l);
      case StartFails(k) => FailMovesItsOwn(s, k, Some(k), l);
      case StartSucceeds(k) => FailMovesItsOwn(s, k, Some(k), l);
      case _ =>
    }
  }

  lemma FailMovesItsOwn(s: State, k: nat, owned: Option<nat>, l: nat)
    requires l < |s.launches| && k < |s.launches| && s.launches[k].session < |s.all|
    ensures l < |FailStep(s, k, owned).launches|
    ensures FailStep(s, k, owned).launches[l].session == s.launches[l].session
    ensures k != l ==> FailStep(s, k, owned).launches[l].phase == s.launches[l].phase
  {
  }

  /** Launches move on by their own goroutine only. */
  lemma OnlyItsWorkerMoves(s: State, step: Step, l: nat)
    requires l < |s.launches|
    ensures l < |Next(s, step).launches|
    ensures Next(s, step).launches[l].session == s.launches[l].session
    ensures Worker(step) != Some(l) ==> Next(s, step).launches[l].phase == s.launches[l].phase
  {
    if IsCall(step) {
      CallersMoveNoLaunch(s, step, l);
    } else if Worker(step).Some? {
      GoroutinesMoveTheirOwn(s, step, l);
    } else {
      EventsMoveNoLaunch(s, step, l);
    }
  }

  /** A table that lost entries, or got one for a new session, has no entry back for an old one. */
  lemma StaysOut(s: State, s': State, x: nat)
    requires x < |s.all| && x < |s'.all| && !InTable(s, x) && s'.all[x].config.id == s.all[x].config.id
    requires forall id :: id in s'.sessions ==>
      s'.sessions[id] >= |s.all| || (id in s.sessions && s.sessions[id] == s'.sessions[id])
    ensures !InTable(s', x)
  {
  }

  lemma ClientRevivesNoSession(s: State, cfg: Config, x: nat)
    requires TableInv(s) && x < |s.all| && !InTable(s, x)
    ensures x < |ClientStep(s, cfg).all| && !InTable(ClientStep(s, cfg), x)
  {
    StaysOut(s, ClientStep(s, cfg), x);
  }

  lemma ReleaseRevivesNoSession(s: State, id: string, x: nat)
    requires TableInv(s) && x < |s.all| && !InTable(s, x)
    ensures x < |ReleaseStep(s, id).all| && !InTable(ReleaseStep(s, id), x)
  {
    StaysOut(s, ReleaseStep(s, id), x);
  }

  lemma InvalidateRevivesNoSession(s: State, id: string, x: nat)
    requires TableInv(s) && x < |s.all| && !InTable(s, x)
    ensures x < |InvalidateStep(s, id).all| && !InTable(InvalidateStep(s, id), x)
  {
    StaysOut(s, InvalidateStep(s, id), x);
  }

  lemma CallersReviveNoSession(s: State, step: Step, x: nat)
    requires TableInv(s) && x < |s.all| && !InTable(s, x) && IsCall(step)
    ensures x < |Next(s, step).all| && !InTable(Next(s, step), x)
  {
    match step
    case ClientCall(cfg) => ClientRevivesNoSession(s, Normalize(cfg), x);
    case Release(id) => ReleaseRevivesNoSession(s, id, x);
    case Invalidate(id) => InvalidateRevivesNoSession(s, id, x);
  }

  lemma FailKeepsTable(s: State, l: nat, owned: Option<nat>, x: nat)
    requires l < |s.launches| && s.launches[l].session < |s.all| && x < |s.all|
    ensures var s' := FailStep(s, l, owned);
      s'.sessions == s.sessions && x < |s'.all| && s'.all[x].config == s.all[x].config
  {
  }

  lemma GoroutinesKeepTable(s: State, step: Step, x: nat)
    requires Worker(step).Some? && x < |s.all|
    ensures var s' := Next(s, step);
      s'.sessions == s.sessions && x < |s'.all| && s'.all[x].config == s.all[x].config
  {
    if Enabled(s, step) {
      match step
      case LaunchFails(l) => FailKeepsTable(s, l, None, x);
      case StartFails(l) => FailKeepsTable(s, l, Some(l), x);
      case StartSucceeds(l) => FailKeepsTable(s, l, Some(l), x);
      case _ =>
    }
  }

  lemma EventsReviveNoSession(s: State, step: Step, x: nat)
    requires TableInv(s) && x < |s.all| && !InTable(s, x) && !IsCall(step) && Worker(step).None?
    ensures x < |Next(s, step).all| && !InTable(Next(s, step), x)
  {
    StaysOut(s, Next(s, step), x);
  }

  /** Sessions that have left the table do not come back. */
  lemma OutOfTable(s: State, step: Step, x: nat)
    requires TableInv(s) && x < |s.all| && !InTable(s, x)
    ensures x < |Next(s, step).all| && !InTable(Next(s, step), x)
  {
    if IsCall(step) {
      CallersReviveNoSession(s, step, x);
    } else if Worker(step).Some? {
      GoroutinesKeepTable(s, step, x);
      StaysOut(s, Next(s, step), x);
    } else {
      EventsReviveNoSession(s, step, x);
    }
  }

  /** The early way out of a startup, and it alone, ends a launch without closing its channel. */
  lemma OnlyAnEarlyReturnForgetsWaiters(now: int, steps: seq<Step>, step: Step, l: nat)
    requires l < |Exec(Initial(now), steps).launches|
    ensures var s := Exec(Initial(now), steps); var s' := Next(s, step);
      && l < |s'.launches| && s.launches[l].session < |s.all|
      && (s.launches[l].InFlight() && !s.launches[l].woken ==>
            (s'.launches[l].phase == Done && !s'.launches[l].woken <==>
             step == Publish(l) && Enabled(s, step) && !InTable(s, s.launches[l].session)))
  {
    var s := Exec(Initial(now), steps);
    InvAlways(now, steps);
    OnlyItsWorkerMoves(s, step, l);
    var x := s.launches[l].session;
    assert SessionInv(s, x) && Own(s, x, l);
  }

  /** The goroutines of other sessions do not close a session's startup channel. */
  lemma OtherWorkersDoNotWake(s: State, step: Step, l: nat)
    requires Inv(s) && l < |s.launches| && !s.launches[l].woken
    requires Worker(step).Some? && !Own(s, s.launches[l].session, Worker(step).value)
    ensures l < |Next(s, step).launches| && !Next(s, step).launches[l].woken
  {
    if Enabled(s, step) {
      var k := Worker(step).value;
      match step
      case LaunchFails(_) => FailWakesItsOwn(s, k, None, l);
      case StartFails(_) => FailWakesItsOwn(s, k, Some(k), l);
      case StartSucceeds(_) => SuccessWakesItsOwn(s, k, l);
      case _ =>
    }
  }

  lemma FailWakesItsOwn(s: State, k: nat, owned: Option<nat>, l: nat)
    requires Inv(s) && l < |s.launches| && !s.launches[l].woken
    requires k < |s.launches| && s.launches[k].session < |s.all| && s.launches[l].session != s.launches[k].session
    ensures l < |FailStep(s, k, owned).launches| && !FailStep(s, k, owned).launches[l].woken
  {
    assert SessionInv(s, s.launches[k].session);
  }

  lemma SuccessWakesItsOwn(s: State, k: nat, l: nat)
    requires Inv(s) && l < |s.launches| && !s.launches[l].woken
    requires Enabled(s, StartSucceeds(k)) && s.launches[l].session != s.launches[k].session
    ensures l < |SucceedStep(s, k).launches| && !SucceedStep(s, k).launches[l].woken
  {
    FailWakesItsOwn(s, k, Some(k), l);
    assert SessionInv(s, s.launches[k].session);
  }

  /** Callers, timers and even Close do not wake the waiters of a session out of the table. */
  lemma EventsDoNotWake(s: State, step: Step, l: nat)
    requires Inv(s) && l < |s.launches| && !s.launches[l].woken
    requires !InTable(s, s.launches[l].session) && Worker(step).None?
    ensures l < |Next(s, step).launches| && !Next(s, step).launches[l].woken
  {
    if IsCall(step) { CallersMoveNoLaunch(s, step, l); } else { OtherEventsDoNotWake(s, step, l); }
  }

  lemma OtherEventsDoNotWake(s: State, step: Step, l: nat)
    requires l < |s.launches| && !s.launches[l].woken
    requires !InTable(s, s.launches[l].session) && Worker(step).None? && !IsCall(step)
    ensures l < |Next(s, step).launches| && !Next(s, step).launches[l].woken
  {
  }

  lemma NobodyWorksBesideIt(s: State, step: Step, l: nat)
    requires Inv(s) && l < |s.launches| && s.launches[l].phase == Done && !s.launches[l].woken
    requires s.launches[l].session < |s.all| && !InTable(s, s.launches[l].session)
    ensures Enabled(s, step) && Worker(step).Some? ==> !Own(s, s.launches[l].session, Worker(step).value)
  {
    var x := s.launches[l].session;
    assert SessionInv(s, x) && LaunchInv(s, x, l);
    if Worker(step).Some? {
      var k := Worker(step).value;
      assert Own(s, x, k) && k < l ==> BackedOff(s.launches[k], s.launches[l]);
      assert Own(s, x, k) && l < k ==> BackedOff(s.launches[l], s.launches[k]);
    }
  }

  lemma AsleepStep(s: State, step: Step, l: nat)
    requires Inv(s) && l < |s.launches| && s.launches[l].phase == Done && !s.launches[l].woken
    requires !InTable(s, s.launches[l].session)
    ensures var s' := Next(s, step);
      && l < |s'.launches| && s'.launches[l].phase == Done && !s'.launches[l].woken
      && s'.launches[l].session == s.launches[l].session && !InTable(s', s'.launches[l].session)
  {
    var x := s.launches[l].session;
    assert SessionInv(s, x) && Own(s, x, l);
    OutOfTable(s, step, x);
    OnlyItsWorkerMoves(s, step, l);
    NobodyWorksBesideIt(s, step, l);
    if Enabled(s, step) {
      if Worker(step).Some? { OtherWorkersDoNotWake(s, step, l); } else { EventsDoNotWake(s, step, l); }
    }
  }

  lemma {:induction false} AsleepForever(s: State, steps: seq<Step>, l: nat)
    requires Inv(s) && l < |s.launches| && s.launches[l].phase == Done && !s.launches[l].woken
    requires !InTable(s, s.launches[l].session)
    ensures l < |Exec(s, steps).launches| && !Exec(s, steps).launches[l].woken
    decreases |steps|
  {
    if steps != [] {
      NextKeepsInv(s, steps[0]);
      AsleepStep(s, steps[0], l);
      AsleepForever(Next(s, steps[0]), steps[1..], l);
    }
  }
}
