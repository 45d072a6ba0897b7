/** What the session manager reports about a project, and what the report says about the run. */
module ManagerReport {
  import opened Collections
  import opened ManagerModel
  import opened ManagerInvariant
  import opened ManagerProofs
  import opened ManagerClaims
  import opened ManagerTheorems

  datatype Reported = IsAbsent | IsStarting | IsRunning | IsDegraded

  /** What SessionState reports; a running client reports its own index phase. */
  function SessionState(s: State, id: string): Reported {
    if id !in s.sessions || s.sessions[id] >= |s.all| then IsAbsent
    else ReportOf(s.all[s.sessions[id]])
  }

  function ReportOf(session: Session): Reported {
    if session.client.Some? then IsRunning
    else if session.starting.Some? then IsStarting
    else if session.startErr then IsDegraded
    else IsAbsent
  }

  /** The report is "starting" exactly while a startup goroutine of the project's session is in flight. */
  lemma StartingIsInFlight(now: int, steps: seq<Step>, id: string)
    ensures var s := Exec(Initial(now), steps);
      SessionState(s, id) == IsStarting <==>
        id in s.sessions && exists l :: Own(s, s.sessions[id], l) && s.launches[l].InFlight()
  {
    var s := Exec(Initial(now), steps);
    InvAlways(now, steps);
    if id in s.sessions {
      var x := s.sessions[id];
      assert InTable(s, x) && SessionInv(s, x);
      if l :| Own(s, x, l) && s.launches[l].InFlight() {
        assert LaunchInv(s, x, l);
      }
      if s.all[x].starting.Some? { assert Own(s, x, s.all[x].starting.value); }
    }
  }

  // ----- when the report is "absent" -----

  /** A request begins a startup of the project's session, new or known. */
  predicate Starts(s: State, step: Step, id: string) {
    step.ClientCall? && Normalize(step.cfg).id == id && |Next(s, step).launches| > |s.launches|
  }

  /** The process of the project's session dies under its client. */
  predicate Crashes(s: State, step: Step, id: string) {
    Crash(s, step) && s.all[s.launches[step.launch].session].config.id == id
  }

  /** The project's session leaves the table, or crashes. */
  predicate Ends(s: State, step: Step, id: string) {
    (id in s.sessions && id !in Next(s, step).sessions) || Crashes(s, step, id)
  }

  predicate AbsentInTable(s: State, id: string) {
    id in s.sessions && SessionState(s, id) == IsAbsent
  }

  /** One step makes the report "absent" by ending the session, and takes that back by starting it. */
  predicate Turns(s: State, step: Step, id: string) {
    && (id !in s.sessions && id in Next(s, step).sessions ==> Starts(s, step, id))
    && (SessionState(Next(s, step), id) == IsAbsent
        <==> !Starts(s, step, id) && (Ends(s, step, id) || SessionState(s, id) == IsAbsent))
  }

  /** Without a startup or a crash, only leaving the table makes the report "absent". */
  predicate TurnsQuietly(s: State, s': State, id: string) {
    && (id in s'.sessions ==> id in s.sessions)
    && (SessionState(s', id) == IsAbsent <==> id !in s'.sessions || SessionState(s, id) == IsAbsent)
  }

  lemma ClientTurns(s: State, cfg: Config, id: string)
    requires Inv(s)
    ensures Turns(s, ClientCall(cfg), id)
  {
    if Normalize(cfg).id == id { OwnClientTurns(s, cfg, id); } else { OtherClientTurns(s, cfg, id); }
  }

  lemma OtherClientTurns(s: State, cfg: Config, id: string)
    requires Inv(s) && Normalize(cfg).id != id
    ensures Turns(s, ClientCall(cfg), id)
  {
  }

  lemma OwnClientTurns(s: State, cfg: Config, id: string)
    requires Inv(s) && Normalize(cfg).id == id
    ensures Turns(s, ClientCall(cfg), id)
  {
    if id in s.sessions { assert SessionInv(s, s.sessions[id]); }
  }

  lemma ReleaseTurns(s: State, released: string, id: string)
    requires Inv(s)
    ensures TurnsQuietly(s, ReleaseStep(s, released), id)
  {
  }

  lemma InvalidateTurns(s: State, invalidated: string, id: string)
    requires Inv(s)
    ensures TurnsQuietly(s, InvalidateStep(s, invalidated), id)
  {
  }

  lemma ResultTurns(s: State, l: nat, id: string)
    requires Inv(s) && Enabled(s, StartupResult(l))
    ensures TurnsQuietly(s, ResultStep(s, l), id)
  {
  }

  lemma FailTurns(s: State, l: nat, owned: Option<nat>, id: string)
    requires Inv(s) && CanFail(s, l, owned)
    ensures TurnsQuietly(s, FailStep(s, l, owned), id)
  {
    var x := s.launches[l].session;
    assert SessionInv(s, x) && Own(s, x, l) && LaunchInv(s, x, l);
  }

  lemma SuccessTurns(s: State, l: nat, id: string)
    requires Inv(s) && Enabled(s, StartSucceeds(l))
    ensures TurnsQuietly(s, SucceedStep(s, l), id)
  {
    var x := s.launches[l].session;
    assert SessionInv(s, x) && Own(s, x, l) && LaunchInv(s, x, l);
    FailTurns(s, l, Some(l), id);
  }

  lemma PublishTurns(s: State, l: nat, id: string)
    requires Inv(s) && Enabled(s, Publish(l))
    ensures TurnsQuietly(s, PublishStep(s, l), id)
  {
  }

  lemma IdleTurns(s: State, t: nat, id: string)
    requires Inv(s) && Enabled(s, IdleStop(t))
    ensures TurnsQuietly(s, IdleStep(s, t), id)
  {
  }

  lemma CloseTurns(s: State, id: string)
    requires Inv(s)
    ensures TurnsQuietly(s, CloseStep(s), id)
  {
  }

  lemma CrashTurns(s: State, l: nat, id: string)
    requires Inv(s) && Enabled(s, WatchReturns(l))
    ensures Turns(s, WatchReturns(l), id)
  {
    var x := s.launches[l].session;
    assert SessionInv(s, x) && Own(s, x, l) && LaunchInv(s, x, l);
  }

  lemma QuietTurns(s: State, step: Step, id: string)
    requires Inv(s) && Enabled(s, step) && !step.ClientCall? && !step.WatchReturns?
    ensures TurnsQuietly(s, Next(s, step), id)
  {
    match step
    case StartupResult(l) => ResultTurns(s, l, id);
    case Release(released) => ReleaseTurns(s, released, id);
    case Invalidate(invalidated) => InvalidateTurns(s, invalidated, id);
    case LaunchFails(l) => FailTurns(s, l, None, id);
    case StartFails(l) => FailTurns(s, l, Some(l), id);
    case StartSucceeds(l) => SuccessTurns(s, l, id);
    case Publish(l) => PublishTurns(s, l, id);
    case IdleStop(t) => IdleTurns(s, t, id);
    case Close => CloseTurns(s, id);
    case _ =>
  }

  lemma StepTurns(s: State, step: Step, id: string)
    requires Inv(s)
    ensures Turns(s, step, id)
  {
    if Enabled(s, step) {
      match step
      case ClientCall(cfg) => ClientTurns(s, cfg, id);
      case WatchReturns(l) => CrashTurns(s, l, id);
      case _ => QuietTurns(s, step, id);
    }
  }

  predicate StartsAt(now: int, steps: seq<Step>, i: nat, id: string)
    requires i < |steps|
  {
    Starts(Exec(Initial(now), steps[..i]), steps[i], id)
  }

  predicate EndsAt(now: int, steps: seq<Step>, i: nat, id: string)
    requires i < |steps|
  {
    Ends(Exec(Initial(now), steps[..i]), steps[i], id)
  }

  /** Every startup of the project has been followed by a removal or a crash of its session. */
  ghost predicate AllEnded(now: int, steps: seq<Step>, id: string) {
    forall i :: 0 <= i < |steps| && StartsAt(now, steps, i, id) ==>
      exists j :: i < j < |steps| && EndsAt(now, steps, j, id)
  }

  lemma OneMoreStep(now: int, steps: seq<Step>, step: Step, id: string)
    ensures var s := Exec(Initial(now), steps);
      AllEnded(now, steps + [step], id) <==> !Starts(s, step, id) && (Ends(s, step, id) || AllEnded(now, steps, id))
  {
    var s := Exec(Initial(now), steps);
    var all, n := steps + [step], |steps|;
    assert all[..n] == steps && all[n] == step;
    forall i | 0 <= i < n
      ensures StartsAt(now, all, i, id) == StartsAt(now, steps, i, id)
        && EndsAt(now, all, i, id) == EndsAt(now, steps, i, id)
    {
      assert all[..i] == steps[..i];
    }
    assert StartsAt(now, all, n, id) == Starts(s, step, id) && EndsAt(now, all, n, id) == Ends(s, step, id);
  }

  /**
   The report is "absent" exactly when every startup of the project has been followed by a
   removal or a crash of its session. So a project never started is reported "absent", as
   documented; the converse holds of a run unless it started the project and has ended it since.
   */
  lemma {:induction false} AbsentExactlyWhen(now: int, steps: seq<Step>, id: string)
    ensures SessionState(Exec(Initial(now), steps), id) == IsAbsent <==> AllEnded(now, steps, id)
    decreases |steps|
  {
    if steps != [] {
      var before, step := steps[..|steps| - 1], steps[|steps| - 1];
      var s := Exec(Initial(now), before);
      assert steps == before + [step];
      AbsentExactlyWhen(now, before, id);
      InvAlways(now, before);
      StepTurns(s, step, id);
      OneMoreStep(now, before, step, id);
      ExecConcat(Initial(now), before, [step]);
      assert Exec(s, [step]) == Exec(Next(s, step), []);
    }
  }

  /** For a session in the table, the report becomes "absent" exactly when its process crashes. */
  lemma AbsentInTableMeansCrash(now: int, steps: seq<Step>, step: Step, id: string)
    ensures var s := Exec(Initial(now), steps); var s' := Next(s, step);
      AbsentInTable(s', id) && !AbsentInTable(s, id) <==> Crashes(s, step, id)
  {
    var s := Exec(Initial(now), steps);
    InvAlways(now, steps);
    StepTurns(s, step, id);
    if Crash(s, step) { CrashLooksAbsent(now, steps, step); }
  }

  /** After a crash the report is "absent", although the session is there and backing off. */
  lemma CrashLooksAbsent(now: int, steps: seq<Step>, step: Step)
    requires Crash(Exec(Initial(now), steps), step)
    ensures var s := Exec(Initial(now), steps); var s' := Next(s, step);
      var x := s.launches[step.launch].session;
      && InTable(s', x)
      && SessionState(s', s'.all[x].config.id) == IsAbsent && SessionState(s, s'.all[x].config.id) == IsRunning
      && s'.all[x].nextStart.Some? && s'.all[x].nextStart.value > s'.now
  {
    var s := Exec(Initial(now), steps);
    InvAlways(now, steps);
    var x := s.launches[step.launch].session;
    assert SessionInv(s, x) && Own(s, x, step.launch);
    assert LaunchInv(s, x, step.launch);
  }
}
