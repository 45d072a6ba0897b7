/** Concrete runs of the session manager in which it does not do what one would expect. */
module ManagerCrash {
  import opened Collections
  import opened ManagerModel
  import opened ManagerClaims
  import opened ManagerReport

  const Sample := Config("p", "clangd", "", "cache", "file:///p", 1, 1, 1)

  /** One more step of a run from the start. */
  lemma Extend(steps: seq<Step>, s: State, step: Step) returns (longer: seq<Step>, s': State)
    requires s == Exec(Initial(0), steps)
    ensures longer == steps + [step] && s' == Next(s, step) && s' == Exec(Initial(0), longer)
  {
    longer, s' := steps + [step], Next(s, step);
    ExecConcat(Initial(0), steps, [step]);
    assert Exec(s, [step]) == Exec(Next(s, step), []);
  }

  /** A caller takes the client of a project's first launch. */
  lemma FirstClaim() returns (steps: seq<Step>, s: State)
    ensures s == Exec(Initial(0), steps) && Close !in steps && ClientCall(Sample) in steps
    ensures !s.closed && s.sessions == map["p" := 0] && s.claims == map["p" := 1] && s.now == 0 && s.cleanups == {}
    ensures s.all == [Session(Sample, Some(0), Some(0), 1, None, 0, None, None, false, Some(0), false)]
    ensures s.launches == [Launch(0, Watching, Running, Open, false, true, 0, None)]
    ensures s.timers == [Timer(0, Over)]
  {
    steps, s := FirstProcess();
    steps, s := Extend(steps, s, StartSucceeds(0));
    assert s.all == [Session(Sample, Some(0), Some(0), 0, Some(0), 0, None, None, false, Some(0), false)];
    assert s.launches == [Launch(0, Watching, Running, Open, false, true, 0, None)];
    steps, s := Extend(steps, s, StartupResult(0));
  }

  lemma FirstProcess() returns (steps: seq<Step>, s: State)
    ensures s == Exec(Initial(0), steps) && Close !in steps && ClientCall(Sample) in steps
    ensures !s.closed && s.sessions == map["p" := 0] && s.claims == map[] && s.now == 0 && s.cleanups == {}
    ensures s.all == [Session(Sample, Some(0), None, 0, None, 0, None, Some(0), false, Some(0), false)]
    ensures s.launches == [Launch(0, Initializing, Running, Open, false, false, 0, None)]
    ensures s.timers == []
  {
    steps, s := [], Initial(0);
    steps, s := Extend(steps, s, ClientCall(Sample));
    steps, s := Extend(steps, s, Spawn(0));
    steps, s := Extend(steps, s, Publish(0));
  }

  /** Its process dies, and the wait before a restart passes. */
  lemma Crashed() returns (steps: seq<Step>, s: State)
    ensures s == Exec(Initial(0), steps) && Close !in steps
    ensures !s.closed && s.sessions == map["p" := 0] && s.claims == map["p" := 1] && s.cleanups == {} && s.now == SECOND
    ensures s.all == [Session(Sample, None, None, 1, None, 1, Some(SECOND), None, false, None, false)]
    ensures s.launches == [Launch(0, Done, Exited, Shut, true, true, 0, Some(Failure(0, 1)))]
    ensures s.timers == [Timer(0, Over)]
  {
    steps, s := JustCrashed();
    steps, s := Extend(steps, s, Tick(SECOND));
  }

  lemma JustCrashed() returns (steps: seq<Step>, s: State)
    ensures s == Exec(Initial(0), steps) && Close !in steps && ClientCall(Sample) in steps
    ensures !s.closed && s.sessions == map["p" := 0] && s.claims == map["p" := 1] && s.cleanups == {} && s.now == 0
    ensures s.all == [Session(Sample, None, None, 1, None, 1, Some(SECOND), None, false, None, false)]
    ensures s.launches == [Launch(0, Done, Exited, Shut, true, true, 0, Some(Failure(0, 1)))]
    ensures s.timers == [Timer(0, Over)]
  {
    steps, s := FirstClaim();
    steps, s := Extend(steps, s, ProcessExits(0));
    assert s.launches == [Launch(0, Watching, Exited, Open, false, true, 0, None)];
    steps, s := Extend(steps, s, WatchReturns(0));
  }

  /** A second caller restarts the session. */
  lemma Relaunched() returns (steps: seq<Step>, s: State)
    ensures s == Exec(Initial(0), steps) && Close !in steps
    ensures !s.closed && s.sessions == map["p" := 0] && s.claims == map["p" := 1] && s.cleanups == {}
    ensures s.all == [Session(Sample, Some(1), None, 1, None, 1, Some(SECOND), Some(1), false, Some(1), false)]
    ensures |s.launches| == 2 && s.launches[1] == Launch(0, Initializing, Running, Open, false, false, SECOND, None)
    ensures s.timers == [Timer(0, Over)]
  {
    steps, s := Crashed();
    steps, s := Extend(steps, s, ClientCall(Sample));
    assert s.all == [Session(Sample, None, None, 1, None, 1, Some(SECOND), Some(1), false, Some(1), false)];
    assert |s.launches| == 2 && s.launches[1] == Launch(0, Starting, Unspawned, Absent, false, false, SECOND, None);
    steps, s := Extend(steps, s, Spawn(1));
    assert |s.launches| == 2 && s.launches[1] == Launch(0, Spawned, Running, Absent, false, false, SECOND, None);
    steps, s := Extend(steps, s, Publish(1));
  }

  lemma Restarted() returns (steps: seq<Step>, s: State)
    ensures s == Exec(Initial(0), steps) && Close !in steps
    ensures !s.closed && s.sessions == map["p" := 0] && s.claims == map["p" := 1] && s.cleanups == {}
    ensures s.all == [Session(Sample, Some(1), Some(1), 0, Some(1), 1, Some(SECOND), None, false, Some(1), false)]
    ensures |s.launches| == 2 && s.launches[1] == Launch(0, Watching, Running, Open, false, true, SECOND, None)
    ensures s.timers == [Timer(0, Over), Timer(0, Armed)]
  {
    steps, s := Relaunched();
    assert Forgets(s, StartSucceeds(1));
    steps, s := Extend(steps, s, StartSucceeds(1));
  }

  /**
   The count is then below what callers hold, and the first caller's release followed by the
   idle timer closes the client that the second caller is still using.
   */
  lemma ACrashForgetsReferences() returns (before: seq<Step>, after: seq<Step>)
    ensures var s := Exec(Initial(0), before);
      Refs(s, "p") < Claims(s, "p") && Offers(s, 0, 1)
    ensures var s := Exec(Initial(0), after);
      Claims(s, "p") > 0 && !InTable(s, 0) && |s.launches| > 1 && s.launches[1].client == Shut
    ensures before <= after && Close !in after
  {
    var s: State;
    before, s := Restarted();
    after, s := SharedAndReleased(before, s);
    after, s := TheTimerStrikes(after, s);
  }

  /** A second caller takes the client, and the first one returns it. */
  lemma SharedAndReleased(steps: seq<Step>, s: State) returns (after: seq<Step>, s': State)
    requires s == Exec(Initial(0), steps) && Close !in steps
    requires !s.closed && s.sessions == map["p" := 0] && s.claims == map["p" := 1]
    requires s.all == [Session(Sample, Some(1), Some(1), 0, Some(1), 1, Some(SECOND), None, false, Some(1), false)]
    requires |s.launches| == 2 && s.launches[1] == Launch(0, Watching, Running, Open, false, true, SECOND, None)
    requires s.timers == [Timer(0, Over), Timer(0, Armed)]
    ensures s' == Exec(Initial(0), after) && steps <= after && Close !in after
    ensures !s'.closed && s'.sessions == map["p" := 0] && s'.claims == map["p" := 1]
    ensures s'.all == [Session(Sample, Some(1), Some(1), 0, Some(2), 1, Some(SECOND), None, false, Some(1), false)]
    ensures |s'.launches| == 2 && s'.launches[1] == Launch(0, Watching, Running, Open, false, true, SECOND, None)
    ensures s'.timers == [Timer(0, Over), Timer(0, Over), Timer(0, Armed)]
  {
    after, s' := Extend(steps, s, StartupResult(1));
    var shared := Session(Sample, Some(1), Some(1), 1, None, 1, Some(SECOND), None, false, Some(1), false);
    assert s' == s.(all := [shared], claims := map["p" := 2], timers := [Timer(0, Over), Timer(0, Over)]);
    LastRelease(s', shared);
    after, s' := Extend(after, s', Release("p"));
  }

  lemma LastRelease(s: State, session: Session)
    requires s.sessions == map["p" := 0] && s.all == [session] && session.config.id == "p"
    requires session.refs == 1 && !session.stale && session.timer.None? && s.claims == map["p" := 2]
    ensures Next(s, Release("p")) == s.(
      all := [session.(refs := 0, timer := Some(|s.timers|))], claims := map["p" := 1],
      timers := s.timers + [Timer(0, Armed)])
  {
  }

  lemma TheTimerStrikes(steps: seq<Step>, s: State) returns (after: seq<Step>, s': State)
    requires s == Exec(Initial(0), steps) && Close !in steps
    requires !s.closed && s.sessions == map["p" := 0] && s.claims == map["p" := 1]
    requires s.all == [Session(Sample, Some(1), Some(1), 0, Some(2), 1, Some(SECOND), None, false, Some(1), false)]
    requires |s.launches| == 2 && s.launches[1] == Launch(0, Watching, Running, Open, false, true, SECOND, None)
    requires s.timers == [Timer(0, Over), Timer(0, Over), Timer(0, Armed)]
    ensures s' == Exec(Initial(0), after) && steps <= after && Close !in after
    ensures Claims(s', "p") > 0 && !InTable(s', 0) && |s'.launches| > 1 && s'.launches[1].client == Shut
  {
    after, s' := Extend(steps, s, TimerFires(2));
    assert s'.timers == [Timer(0, Over), Timer(0, Over), Timer(0, Fired)];
    after, s' := Extend(after, s', IdleStop(2));
  }

  // ----- the report "absent" for a project that was requested -----

  /** The process has died, the session backs off, and the report is "absent". */
  lemma ACrashLooksAbsent() returns (steps: seq<Step>)
    ensures ClientCall(Sample) in steps && SessionState(Exec(Initial(0), steps), "p") == IsAbsent
    ensures "p" in Exec(Initial(0), steps).sessions
  {
    var s: State;
    steps, s := JustCrashed();
  }

  /** The session is removed while it starts, and the report is "absent". */
  lemma ARemovalLooksAbsent()
    ensures SessionState(Exec(Initial(0), [ClientCall(Sample), Invalidate("p")]), "p") == IsAbsent
  {
    var steps, s := Extend([], Initial(0), ClientCall(Sample));
    assert s.sessions == map["p" := 0];
    steps, s := Extend(steps, s, Invalidate("p"));
    assert steps == [ClientCall(Sample), Invalidate("p")];
  }

  // ----- a startup that wakes nobody -----

  /** A session is invalidated when its process has been spawned and not published yet. */
  lemma InvalidatedBeforePublishing() returns (steps: seq<Step>, s: State)
    ensures steps == [ClientCall(Sample), Spawn(0), Invalidate("p")] && s == Exec(Initial(0), steps)
    ensures s.sessions == map[] && |s.all| == 1
    ensures s.launches == [Launch(0, Spawned, Running, Absent, true, false, 0, None)]
  {
    steps, s := Extend([], Initial(0), ClientCall(Sample));
    assert s.sessions == map["p" := 0] && s.all == [NewSession(Sample, 0)];
    assert s.launches == [Launch(0, Starting, Unspawned, Absent, false, false, 0, None)];
    steps, s := Extend(steps, s, Spawn(0));
    assert s.launches == [Launch(0, Spawned, Running, Absent, false, false, 0, None)];
    steps, s := Extend(steps, s, Invalidate("p"));
  }

  /** An invalidation between spawning and publishing leaves the waiters of the startup asleep. */
  lemma AnEarlyReturnForgetsWaiters()
    ensures var s := Exec(Initial(0), [ClientCall(Sample), Spawn(0), Invalidate("p"), Publish(0)]);
      |s.launches| == 1 && s.launches[0].phase == Done && !s.launches[0].woken
  {
    var steps, s := InvalidatedBeforePublishing();
    steps, s := Extend(steps, s, Publish(0));
    assert steps == [ClientCall(Sample), Spawn(0), Invalidate("p"), Publish(0)];
  }
}
