/** What the coordinator makes of single invalidations, of bursts of them, and of its goroutines. */
module CoordinatorBursts {
  import opened Collections
  import opened CoordinatorModel
  import opened CoordinatorProofs
  import opened CoordinatorTheorems

  // ----- one step at a time -----

  /** An invalidation of an idle project starts a new timer for it; that of a busy one starts none. */
  lemma InvalidationsArm(maxConcurrent: int, steps: seq<Step>, id: string)
    ensures var s := Exec(Initial(maxConcurrent), steps); var s' := Next(s, Invalidate(id));
      && s'.generations == s.generations
      && (id == "" || s.closed ==> s' == s)
      && (id != "" && !s.closed && HasActive(s, id) ==> s'.timers == s.timers)
      && (id != "" && !s.closed && !HasActive(s, id) ==>
            |s'.timers| == |s.timers| + 1 && s'.timers[|s.timers|] == Timer(id, Armed))
  {
    var s := Exec(Initial(maxConcurrent), steps);
    InvAlways(maxConcurrent, steps);
    RunningIsActive(s, id);
    StopTimerKeeps(s.timers, if id in s.projects then s.projects[id].timer else None);
  }

  lemma RunningIsActive(s: State, id: string)
    requires ExclusionInv(s)
    ensures Running(s, id) <==> HasActive(s, id)
  {
    if HasActive(s, id) {
      var g :| ActiveIn(s, g) && s.generations[g].project == id;
    }
  }

  /** A fired callback starts a generation exactly when the coordinator is open and none of the project is active. */
  lemma CallbacksStart(maxConcurrent: int, steps: seq<Step>, t: nat)
    requires Enabled(Exec(Initial(maxConcurrent), steps), Start(t))
    ensures var s := Exec(Initial(maxConcurrent), steps); var s' := Next(s, Start(t)); var id := s.timers[t].project;
      && s'.timers == s.timers[t := Timer(id, Over)]
      && s'.generations == s.generations + if s.closed || HasActive(s, id) then [] else [Generation(id, Waiting)]
  {
    InvAlways(maxConcurrent, steps);
    var s := Exec(Initial(maxConcurrent), steps);
    RunningIsActive(s, s.timers[t].project);
  }

  /** Permits are not withheld: a waiting goroutine may go on while fewer than the limit are generating. */
  lemma PermitsAreGiven(maxConcurrent: int, steps: seq<Step>, g: nat)
    ensures var s := Exec(Initial(maxConcurrent), steps);
      Enabled(s, Acquire(g)) <==>
        && g < |s.generations| && s.generations[g].phase == Waiting
        && Total(GeneratingWeight, s.generations) < (if maxConcurrent < 1 then 1 else maxConcurrent)
  {
    InvAlways(maxConcurrent, steps);
    LimitIsFixed(Initial(maxConcurrent), steps);
  }

  predicate AcquiresAt(maxConcurrent: int, steps: seq<Step>, i: nat, g: nat)
    requires i < |steps|
  {
    steps[i] == Acquire(g) && Enabled(Exec(Initial(maxConcurrent), steps[..i]), steps[i])
  }

  lemma LastStep(maxConcurrent: int, before: seq<Step>, step: Step)
    ensures Exec(Initial(maxConcurrent), before + [step]) == Next(Exec(Initial(maxConcurrent), before), step)
  {
    ExecAppend(Initial(maxConcurrent), before, step);
  }

  predicate Past(s: State, g: nat) {
    g < |s.generations| && s.generations[g].phase != Waiting
  }

  /** Only taking a permit, or giving up after Cancel, ends the wait of a goroutine. */
  lemma OnlyAcquireEndsTheWait(s: State, step: Step, g: nat)
    requires Past(Next(s, step), g) && !Past(s, g)
    ensures (step == Acquire(g) && Enabled(s, step)) || s.canceled
  {
  }

  /** Until Close begins, no generation is over without having generated. */
  lemma {:induction false} GenerationsGenerate(maxConcurrent: int, steps: seq<Step>, g: nat)
    requires var s := Exec(Initial(maxConcurrent), steps); Past(s, g) && !s.canceled
    ensures exists i :: 0 <= i < |steps| && AcquiresAt(maxConcurrent, steps, i, g)
    decreases |steps|
  {
    var n := |steps| - 1;
    var before, step := steps[..n], steps[n];
    assert steps == before + [step];
    LastStep(maxConcurrent, before, step);
    var s := Exec(Initial(maxConcurrent), before);
    CanceledIsForever(s, [step]);
    assert Exec(s, [step]) == Exec(Next(s, step), []);
    if Past(s, g) {
      GenerationsGenerate(maxConcurrent, before, g);
      var i :| 0 <= i < n && AcquiresAt(maxConcurrent, before, i, g);
      assert before[..i] == steps[..i];
      assert AcquiresAt(maxConcurrent, steps, i, g);
    } else {
      OnlyAcquireEndsTheWait(s, step, g);
      assert AcquiresAt(maxConcurrent, steps, n, g);
    }
  }

  /** After Cancel, a generation that ends is not followed by another; once closed, nothing new is timed at all. */
  lemma ClosingTimesNothing(maxConcurrent: int, steps: seq<Step>, step: Step)
    ensures var s := Exec(Initial(maxConcurrent), steps); var s' := Next(s, step);
      && (s.closed || (s.canceled && !step.Invalidate?) ==> |s'.timers| == |s.timers|)
      && (s.closed ==> |s'.generations| == |s.generations|)
  {
    var s := Exec(Initial(maxConcurrent), steps);
    InvAlways(maxConcurrent, steps);
  }

  /** Close stops the timer of every project. */
  lemma CloseStopsTimers(maxConcurrent: int, steps: seq<Step>, id: string)
    requires Exec(Initial(maxConcurrent), steps).canceled
    ensures var s := Next(Exec(Initial(maxConcurrent), steps), Shut);
      s.closed && (id in s.projects && s.projects[id].timer.Some? ==>
        s.projects[id].timer.value < |s.timers| && s.timers[s.projects[id].timer.value].status != Armed)
  {
    InvAlways(maxConcurrent, steps);
  }

  // ----- what follows a generation -----

  ghost predicate PendingIsDirty(s: State) {
    !s.canceled ==> forall id :: Pending(s, id) ==> id in s.dirty
  }

  lemma StepKeepsPendingDirty(s: State, step: Step)
    requires Inv(s) && PendingIsDirty(s)
    ensures PendingIsDirty(Next(s, step))
  {
    var s' := Next(s, step);
    forall id | !s'.canceled && Pending(s', id) ensures id in s'.dirty {
      if !(step == Invalidate(id)) { PendingWasPending(s, step, id); }
    }
  }

  lemma PendingWasPending(s: State, step: Step, id: string)
    requires Inv(s) && !Next(s, step).canceled && Pending(Next(s, step), id) && step != Invalidate(id)
    ensures !s.canceled && Pending(s, id) && (id in s.dirty ==> id in Next(s, step).dirty)
  {
    CanceledIsForever(s, [step]);
    assert Exec(s, [step]) == Exec(Next(s, step), []);
  }

  lemma {:induction false} RunKeepsPendingDirty(s: State, steps: seq<Step>)
    requires Inv(s) && PendingIsDirty(s)
    ensures PendingIsDirty(Exec(s, steps))
    decreases |steps|
  {
    if steps != [] {
      NextKeepsInv(s, steps[0]);
      StepKeepsPendingDirty(s, steps[0]);
      RunKeepsPendingDirty(Next(s, steps[0]), steps[1..]);
    }
  }

  /** The end of a generation is followed by a new timer exactly when its project was invalidated since it began. */
  lemma FinishesRearm(maxConcurrent: int, steps: seq<Step>, g: nat)
    requires Enabled(Exec(Initial(maxConcurrent), steps), Finish(g))
    ensures var s := Exec(Initial(maxConcurrent), steps); var s' := Next(s, Finish(g));
      var id := s.generations[g].project;
      && !HasActive(s', id)
      && s'.timers == s.timers + if id in s.dirty && !s.canceled then [Timer(id, Armed)] else []
  {
    var s := Exec(Initial(maxConcurrent), steps);
    InvAlways(maxConcurrent, steps);
    InvAlways(maxConcurrent, []);
    assert Inv(Initial(maxConcurrent));
    RunKeepsPendingDirty(Initial(maxConcurrent), steps);
    assert ActiveIn(s, g);
    NextKeepsInv(s, Finish(g));
    RunningIsActive(Next(s, Finish(g)), s.generations[g].project);
    assert s.generations[g].project in s.dirty && !s.canceled ==> Owed(s, s.generations[g].project);
  }

  // ----- bursts -----

  /** A step of a burst: none of the project's timers fires in it. */
  predicate NotFired(s: State, step: Step, id: string) {
    step.Fire? && step.timer < |s.timers| ==> s.timers[step.timer].project != id
  }

  predicate Burst(s: State, steps: seq<Step>, id: string)
    decreases |steps|
  {
    steps == [] || (NotFired(s, steps[0], id) && Burst(Next(s, steps[0]), steps[1..], id))
  }

  /** The project is idle but for one armed timer, which it refers to. */
  ghost predicate Debounced(s: State, id: string, t: nat) {
    && !HasActive(s, id) && !Running(s, id)
    && t < |s.timers| && s.timers[t] == Timer(id, Armed)
    && id in s.projects && s.projects[id].timer == Some(t) && id in s.dirty
    && forall u :: OutstandingFor(s, id, u) ==> u == t
  }

  lemma FirstIsDebounced(s: State, id: string)
    requires Inv(s) && id != "" && !s.closed && Quiet(s, id)
    ensures Debounced(InvalidateStep(s, id), id, |InvalidateStep(s, id).timers| - 1)
  {
    var s' := InvalidateStep(s, id);
    RunningIsActive(s, id);
    StopTimerKeeps(s.timers, if id in s.projects then s.projects[id].timer else None);
    assert forall g :: ActiveIn(s', g) ==> ActiveIn(s, g);
    forall u | OutstandingFor(s', id, u) ensures u == |s.timers| {
      if u < |s.timers| { assert OutstandingFor(s, id, u); }
    }
  }

  /** One more invalidation replaces the timer. */
  lemma NextIsDebounced(s: State, id: string, t: nat)
    requires Inv(s) && id != "" && !s.closed && Debounced(s, id, t)
    ensures Debounced(InvalidateStep(s, id), id, |InvalidateStep(s, id).timers| - 1)
  {
    var s' := InvalidateStep(s, id);
    StopTimerKeeps(s.timers, Some(t));
    assert forall g :: ActiveIn(s', g) ==> ActiveIn(s, g);
    forall u | OutstandingFor(s', id, u) ensures u == |s.timers| {
      if u < |s.timers| { assert OutstandingFor(s, id, u); }
    }
  }

  lemma OthersKeepQuiet(s: State, step: Step, id: string)
    requires Inv(s) && Quiet(s, id) && step != Invalidate(id)
    ensures Quiet(Next(s, step), id)
  {
    var s' := Next(s, step);
    forall t | OutstandingFor(s', id, t) ensures false {
      OthersAddNoTimer(s, step, id, t);
    }
    forall g | ActiveIn(s', g) && s'.generations[g].project == id ensures false {
      OthersStartNone(s, step, id, g);
    }
  }

  /** Without invalidations, a project gets a timer only when a generation of its own ends. */
  lemma OthersAddNoTimer(s: State, step: Step, id: string, t: int)
    requires Inv(s) && step != Invalidate(id) && !HasActive(s, id)
    requires OutstandingFor(Next(s, step), id, t)
    ensures OutstandingFor(s, id, t)
  {
    if Enabled(s, step) {
      match step
      case Invalidate(x) =>
        StopTimerKeeps(s.timers, if x in s.projects then s.projects[x].timer else None);
      case Finish(g) => assert ActiveIn(s, g);
      case _ =>
    }
  }

  lemma ProjectsStay(s: State, step: Step, g: int)
    ensures ActiveIn(s, g) ==>
      g < |Next(s, step).generations| && Next(s, step).generations[g].project == s.generations[g].project
  {
  }

  /** And a generation only when a callback of its own is on its way. */
  lemma OthersStartNone(s: State, step: Step, id: string, g: int)
    requires ActiveIn(Next(s, step), g) && Next(s, step).generations[g].project == id && !HasActive(s, id)
    ensures step.Start? && OutstandingFor(s, id, step.timer) && s.timers[step.timer].status == Fired
  {
    ProjectsStay(s, step, g);
  }

  lemma OthersKeepDebounced(s: State, step: Step, id: string, t: nat)
    requires Inv(s) && Debounced(s, id, t) && step != Invalidate(id) && NotFired(s, step, id) && !Next(s, step).closed
    ensures Debounced(Next(s, step), id, t)
  {
    var s' := Next(s, step);
    forall u | OutstandingFor(s', id, u) ensures u == t {
      OthersAddNoTimer(s, step, id, u);
    }
    forall g | ActiveIn(s', g) && s'.generations[g].project == id ensures false {
      OthersStartNone(s, step, id, g);
    }
    OwnTimerStays(s, step, id, t);
    NextKeepsInv(s, step);
    RunningIsActive(s', id);
  }

  lemma OwnTimerStays(s: State, step: Step, id: string, t: nat)
    requires Inv(s) && Debounced(s, id, t) && step != Invalidate(id) && NotFired(s, step, id) && !Next(s, step).closed
    ensures var s' := Next(s, step);
      && t < |s'.timers| && s'.timers[t] == s.timers[t]
      && id in s'.projects && s'.projects[id].timer == Some(t) && id in s'.dirty
  {
    if Enabled(s, step) {
      match step
      case Invalidate(x) => OthersStopTheirOwn(s, x, id, t);
      case Start(u) => assert s.timers[u].project == id ==> OutstandingFor(s, id, u);
      case Finish(g) => assert ActiveIn(s, g);
      case _ =>
    }
  }

  lemma OthersStopTheirOwn(s: State, x: string, id: string, t: nat)
    requires TimersInv(s) && x != id && t < |s.timers| && s.timers[t].project == id
    ensures t < |InvalidateStep(s, x).timers| && InvalidateStep(s, x).timers[t] == s.timers[t]
  {
    StopTimerKeeps(s.timers, if x in s.projects then s.projects[x].timer else None);
  }

  lemma {:induction false} DebouncedRun(s: State, burst: seq<Step>, id: string, t: nat)
    requires Inv(s) && id != "" && Debounced(s, id, t) && Burst(s, burst, id) && !Exec(s, burst).closed
    ensures exists u: nat :: Debounced(Exec(s, burst), id, u)
    decreases |burst|
  {
    if burst != [] {
      var s' := Next(s, burst[0]);
      NextKeepsInv(s, burst[0]);
      ClosedIsForever(s', burst[1..]);
      ClosedIsForever(s, []);
      if burst[0] == Invalidate(id) {
        NextIsDebounced(s, id, t);
        DebouncedRun(s', burst[1..], id, |s'.timers| - 1);
      } else {
        OthersKeepDebounced(s, burst[0], id, t);
        DebouncedRun(s', burst[1..], id, t);
      }
    }
  }

  lemma {:induction false} ClosedIsForever(s: State, steps: seq<Step>)
    ensures s.closed ==> Exec(s, steps).closed
    decreases |steps|
  {
    if steps != [] { ClosedIsForever(Next(s, steps[0]), steps[1..]); }
  }

  lemma {:induction false} BurstRun(s: State, burst: seq<Step>, id: string)
    requires Inv(s) && id != "" && Quiet(s, id) && Burst(s, burst, id) && !Exec(s, burst).closed
    ensures if Invalidations(burst, id) == 0 then Quiet(Exec(s, burst), id)
            else exists t: nat :: Debounced(Exec(s, burst), id, t)
    decreases |burst|
  {
    if burst != [] {
      var s' := Next(s, burst[0]);
      NextKeepsInv(s, burst[0]);
      ClosedIsForever(s', burst[1..]);
      if burst[0] == Invalidate(id) {
        FirstIsDebounced(s, id);
        DebouncedRun(s', burst[1..], id, |s'.timers| - 1);
      } else {
        OthersKeepQuiet(s, burst[0], id);
        BurstRun(s', burst[1..], id);
      }
    }
  }

  /**
   Debouncing: however many invalidations of a quiet project arrive before a timer of it fires, and
   whatever else happens meanwhile, they leave exactly one callback on its way, and no generation.
   */
  lemma BurstLeavesOneTimer(maxConcurrent: int, before: seq<Step>, burst: seq<Step>, id: string)
    requires var s := Exec(Initial(maxConcurrent), before);
      id != "" && Quiet(s, id) && Burst(s, burst, id) && !Exec(s, burst).closed && Invalidations(burst, id) > 0
    ensures var s := Exec(Exec(Initial(maxConcurrent), before), burst);
      !HasActive(s, id) && exists t :: OutstandingFor(s, id, t) && forall u :: OutstandingFor(s, id, u) ==> u == t
  {
    var s := Exec(Initial(maxConcurrent), before);
    InvAlways(maxConcurrent, before);
    BurstRun(s, burst, id);
    var t: nat :| Debounced(Exec(s, burst), id, t);
    assert OutstandingFor(Exec(s, burst), id, t);
  }

  /** What is in flight for a project that waits for one timer: that timer, and the generations there have been. */
  lemma OneTimerIsOneCredit(s: State, id: string, t: nat)
    requires Debounced(s, id, t) && !Pending(s, id)
    ensures Measure(Credit, s, id) == Started(s, id) + 1
  {
    forall u | 0 <= u < |s.timers| && s.timers[u].project == id && s.timers[u].Outstanding() ensures u == t {
      assert OutstandingFor(s, id, u);
    }
    OneTimerWeighs(s.timers, id, t);
    StartedIsCredit(s.generations, id);
  }

  lemma {:induction false} OneTimerWeighs(timers: seq<Timer>, id: string, t: nat)
    requires t < |timers| && timers[t] == Timer(id, Armed)
    requires forall u :: 0 <= u < |timers| && timers[u].project == id && timers[u].Outstanding() ==> u == t
    ensures Total(TimerWeight(Credit, id), timers) == 1
  {
    var n := |timers| - 1;
    assert forall u :: 0 <= u < n ==> timers[..n][u] == timers[u];
    if t < n {
      OneTimerWeighs(timers[..n], id, t);
    } else {
      TotalZero(TimerWeight(Credit, id), timers[..n]);
    }
  }

  lemma {:induction false} NoneStartsInBurst(s: State, burst: seq<Step>, id: string)
    requires Inv(s) && id != "" && Burst(s, burst, id) && !Exec(s, burst).closed
    requires Quiet(s, id) || exists t: nat :: Debounced(s, id, t)
    requires !Pending(s, id)
    ensures Started(Exec(s, burst), id) == Started(s, id) && !Pending(Exec(s, burst), id)
    decreases |burst|
  {
    if burst != [] {
      var s' := Next(s, burst[0]);
      NextKeepsInv(s, burst[0]);
      ClosedIsForever(s', burst[1..]);
      NoneStartsInStep(s, burst[0], id);
      if Quiet(s, id) {
        if burst[0] == Invalidate(id) { FirstIsDebounced(s, id); } else { OthersKeepQuiet(s, burst[0], id); }
      } else {
        var t: nat :| Debounced(s, id, t);
        if burst[0] == Invalidate(id) { NextIsDebounced(s, id, t); } else { OthersKeepDebounced(s, burst[0], id, t); }
      }
      NoneStartsInBurst(s', burst[1..], id);
    }
  }

  lemma NoneStartsInStep(s: State, step: Step, id: string)
    requires Inv(s) && !HasActive(s, id) && !Pending(s, id)
    requires forall t :: OutstandingFor(s, id, t) ==> s.timers[t].status == Armed
    ensures Started(Next(s, step), id) == Started(s, id) && !Pending(Next(s, step), id)
  {
    RunningIsActive(s, id);
    match step
    case Start(t) =>
      if Enabled(s, step) {
        assert !OutstandingFor(s, id, t);
        OthersStart(s, t, id);
      }
    case _ => OthersMove(s, step, id);
  }

  lemma OthersStart(s: State, t: nat, id: string)
    requires Enabled(s, Start(t)) && s.timers[t].project != id
    ensures Started(StartStep(s, t), id) == Started(s, id) && Pending(StartStep(s, t), id) == Pending(s, id)
  {
    TotalAppend(BelongsTo(id), s.generations, Generation(s.timers[t].project, Waiting));
  }

  lemma OthersMove(s: State, step: Step, id: string)
    requires !step.Start? && !Running(s, id) && !Pending(s, id)
    ensures Started(Next(s, step), id) == Started(s, id) && !Pending(Next(s, step), id)
  {
    if Enabled(s, step) {
      match step
      case Invalidate(_) =>
      case Finish(g) => OthersFinish(s, g, id);
      case Acquire(g) => TotalUpdate(BelongsTo(id), s.generations, g, Next(s, step).generations[g]);
      case Abandon(g) => TotalUpdate(BelongsTo(id), s.generations, g, Next(s, step).generations[g]);
      case GiveBack(g) => TotalUpdate(BelongsTo(id), s.generations, g, Next(s, step).generations[g]);
      case _ =>
    }
  }

  lemma OthersFinish(s: State, g: nat, id: string)
    requires Enabled(s, Finish(g)) && !Pending(s, id)
    ensures Started(FinishStep(s, g), id) == Started(s, id) && !Pending(FinishStep(s, g), id)
  {
    TotalUpdate(BelongsTo(id), s.generations, g, FinishStep(s, g).generations[g]);
  }

  /** So a burst comes to one generation: at most one, and one when the project has gone quiet before Close. */
  lemma BurstIsOneGeneration(maxConcurrent: int, before: seq<Step>, burst: seq<Step>, after: seq<Step>, id: string)
    requires var s := Exec(Initial(maxConcurrent), before);
      id != "" && Quiet(s, id) && !s.canceled && Burst(s, burst, id) && !Exec(s, burst).closed
    requires Invalidations(burst, id) > 0 && Invalidations(after, id) == 0
    ensures var s := Exec(Initial(maxConcurrent), before); var s' := Exec(Exec(s, burst), after);
      && Started(s', id) <= Started(s, id) + 1
      && (Quiet(s', id) && !s'.canceled ==> Started(s', id) == Started(s, id) + 1)
  {
    var s := Exec(Initial(maxConcurrent), before);
    var b := Exec(s, burst);
    InvAlways(maxConcurrent, before);
    RunningIsActive(s, id);
    BurstRun(s, burst, id);
    NoneStartsInBurst(s, burst, id);
    ExecKeepsInv(s, burst);
    var t: nat :| Debounced(b, id, t);
    OneTimerIsOneCredit(b, id, t);
    CreditsAreSpent(b, after, id);
    StartedIsCredit(Exec(b, after).generations, id);
    ServedInTheEnd(b, after, id);
  }

  /** What is owed has been started when nothing is in flight any more. */
  lemma ServedInTheEnd(s: State, after: seq<Step>, id: string)
    requires Inv(s) && id in s.dirty
    ensures Quiet(Exec(s, after), id) && !Exec(s, after).canceled ==> Started(Exec(s, after), id) > Started(s, id)
  {
    ExecKeepsInv(s, after);
    DirtyUntilStarted(s, after, id);
    RunningIsActive(Exec(s, after), id);
  }
}
