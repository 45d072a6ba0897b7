/** What the coordinator promises, stated over every run from its initial state. */
module CoordinatorTheorems {
  import opened Collections
  import opened CoordinatorModel
  import opened CoordinatorProofs

  lemma InvAlways(maxConcurrent: int, steps: seq<Step>)
    ensures Inv(Exec(Initial(maxConcurrent), steps))
  {
    ExecKeepsInv(Initial(maxConcurrent), steps);
  }

  // ----- exclusion and the concurrency bound -----

  /** One generation per project, at most `maxConcurrent` generating, permits accounted for. */
  lemma ExclusionAndBound(maxConcurrent: int, steps: seq<Step>)
    ensures var s := Exec(Initial(maxConcurrent), steps);
      && (forall g, h :: 0 <= g < h < |s.generations| && s.generations[g].Active() && s.generations[h].Active() ==>
            s.generations[g].project != s.generations[h].project)
      && Total(GeneratingWeight, s.generations) == s.permits <= (if maxConcurrent < 1 then 1 else maxConcurrent)
  {
    InvAlways(maxConcurrent, steps);
    LimitIsFixed(Initial(maxConcurrent), steps);
    var s := Exec(Initial(maxConcurrent), steps);
    forall g, h | 0 <= g < h < |s.generations| && s.generations[g].Active() && s.generations[h].Active()
      ensures s.generations[g].project != s.generations[h].project
    {
      assert ActiveIn(s, g) && ActiveIn(s, h);
    }
  }

  lemma {:induction false} LimitIsFixed(s: State, steps: seq<Step>)
    ensures Exec(s, steps).limit == s.limit
    decreases |steps|
  {
    if steps != [] {
      LimitIsFixed(Next(s, steps[0]), steps[1..]);
    }
  }

  // ----- no invalidation is lost -----

  function BelongsTo(id: string): Generation -> nat {
    (g: Generation) => if g.project == id then 1 else 0
  }

  /** How many generations of a project were ever started. */
  function Started(s: State, id: string): nat {
    Total(BelongsTo(id), s.generations)
  }

  lemma StartedByStart(s: State, t: nat, id: string)
    requires Enabled(s, Start(t))
    ensures Started(Next(s, Start(t)), id) >= Started(s, id)
    ensures id in s.dirty && id !in Next(s, Start(t)).dirty ==> Started(Next(s, Start(t)), id) > Started(s, id)
  {
    TotalAppend(BelongsTo(id), s.generations, Generation(s.timers[t].project, Waiting));
  }

  lemma StartedAfter(s: State, step: Step, id: string)
    ensures Started(Next(s, step), id) >= Started(s, id)
    ensures id in s.dirty && id !in Next(s, step).dirty ==> Started(Next(s, step), id) > Started(s, id)
  {
    if Enabled(s, step) {
      match step
      case Start(t) => StartedByStart(s, t, id);
      case Acquire(g) => TotalUpdate(BelongsTo(id), s.generations, g, Next(s, step).generations[g]);
      case Abandon(g) => TotalUpdate(BelongsTo(id), s.generations, g, Next(s, step).generations[g]);
      case GiveBack(g) => TotalUpdate(BelongsTo(id), s.generations, g, Next(s, step).generations[g]);
      case Finish(g) => TotalUpdate(BelongsTo(id), s.generations, g, Next(s, step).generations[g]);
      case _ =>
    }
  }

  lemma {:induction false} DirtyUntilStarted(s: State, steps: seq<Step>, id: string)
    ensures Started(Exec(s, steps), id) >= Started(s, id)
    ensures id in s.dirty && id !in Exec(s, steps).dirty ==> Started(Exec(s, steps), id) > Started(s, id)
    decreases |steps|
  {
    if steps != [] {
      StartedAfter(s, steps[0], id);
      DirtyUntilStarted(Next(s, steps[0]), steps[1..], id);
    }
  }

  lemma {:induction false} CanceledIsForever(s: State, steps: seq<Step>)
    ensures s.canceled ==> Exec(s, steps).canceled
    decreases |steps|
  {
    if steps != [] {
      CanceledIsForever(Next(s, steps[0]), steps[1..]);
    }
  }

  /**
   Until Close begins, an invalidation is followed by the start of a generation of its
   project, or it is still owed: an idle project has an armed or already fired callback
   on its way, and a running one has its pending flag set.
   */
  lemma NoInvalidationLost(maxConcurrent: int, before: seq<Step>, id: string, after: seq<Step>)
    requires id != ""
    ensures var invalidated := Next(Exec(Initial(maxConcurrent), before), Invalidate(id));
      var s := Exec(invalidated, after);
      s.canceled || Started(s, id) > Started(invalidated, id) || Owed(s, id)
  {
    var idle := Exec(Initial(maxConcurrent), before);
    InvAlways(maxConcurrent, before);
    var invalidated := Next(idle, Invalidate(id));
    NextKeepsInv(idle, Invalidate(id));
    ExecKeepsInv(invalidated, after);
    CanceledIsForever(invalidated, after);
    DirtyUntilStarted(invalidated, after, id);
  }

  /** Nothing more happens for a project: no callback is coming and no goroutine works for it. */
  ghost predicate Quiet(s: State, id: string) {
    !HasOutstanding(s, id) && !HasActive(s, id)
  }

  /** Once a project has gone quiet, every invalidation before that has had its generation. */
  lemma QuietMeansServed(maxConcurrent: int, before: seq<Step>, id: string, after: seq<Step>)
    requires id != ""
    ensures var invalidated := Next(Exec(Initial(maxConcurrent), before), Invalidate(id));
      var s := Exec(invalidated, after);
      Quiet(s, id) && !s.canceled ==> Started(s, id) > Started(invalidated, id)
  {
    NoInvalidationLost(maxConcurrent, before, id, after);
    InvAlways(maxConcurrent, before);
    NextKeepsInv(Exec(Initial(maxConcurrent), before), Invalidate(id));
    var invalidated := Next(Exec(Initial(maxConcurrent), before), Invalidate(id));
    ExecKeepsInv(invalidated, after);
    assert Running(Exec(invalidated, after), id) ==> HasActive(Exec(invalidated, after), id);
  }

  // ----- quiescence: weights on everything a project has in flight -----

  datatype Weights = Weights(
    armed: nat, fired: nat, waiting: nat, generating: nat, reporting: nat, finished: nat, pending: nat)

  function TimerWeight(w: Weights, id: string): Timer -> nat {
    (t: Timer) =>
      if t.project != id then 0
      else match t.status case Armed => w.armed case Fired => w.fired case Over => 0
  }

  function GenerationWeight(w: Weights, id: string): Generation -> nat {
    (g: Generation) =>
      if g.project != id then 0
      else match g.phase
        case Waiting => w.waiting
        case Generating => w.generating
        case Reporting => w.reporting
        case Finished => w.finished
  }

  predicate Pending(s: State, id: string) {
    id in s.projects && s.projects[id].pending
  }

  function Measure(w: Weights, s: State, id: string): nat {
    Total(TimerWeight(w, id), s.timers) + Total(GenerationWeight(w, id), s.generations)
    + (if Pending(s, id) then w.pending else 0)
  }

  /** The project a step works for; closing works for none. */
  function Serves(s: State, step: Step): Option<string> {
    match step
    case Invalidate(id) => Some(id)
    case Fire(t) => if t < |s.timers| then Some(s.timers[t].project) else None
    case Start(t) => if t < |s.timers| then Some(s.timers[t].project) else None
    case Acquire(g) => if g < |s.generations| then Some(s.generations[g].project) else None
    case Abandon(g) => if g < |s.generations| then Some(s.generations[g].project) else None
    case GiveBack(g) => if g < |s.generations| then Some(s.generations[g].project) else None
    case Finish(g) => if g < |s.generations| then Some(s.generations[g].project) else None
    case _ => None
  }

  predicate IsWork(step: Step) {
    !step.Invalidate? && !step.Cancel? && !step.Shut?
  }

  /** Weights under which every unit of work makes progress. */
  predicate Decreasing(w: Weights) {
    w.armed > w.fired > w.waiting > w.generating > w.reporting > w.finished
    && w.pending >= w.armed
  }

  /** Weights under which no unit of work creates anything. */
  predicate Conserving(w: Weights) {
    w.armed >= w.fired >= w.waiting >= w.generating >= w.reporting >= w.finished && w.pending >= w.armed
  }

  lemma TimerStepEffect(w: Weights, s: State, step: Step, id: string)
    requires Enabled(s, step) && (step.Fire? || step.Start?) && Conserving(w)
    ensures Serves(s, step) == Some(id) ==> Measure(w, Next(s, step), id) <= Measure(w, s, id)
    ensures Serves(s, step) == Some(id) && Decreasing(w) ==> Measure(w, Next(s, step), id) < Measure(w, s, id)
    ensures Serves(s, step) != Some(id) ==> Measure(w, Next(s, step), id) == Measure(w, s, id)
  {
    var t := step.timer;
    if step.Fire? {
      TotalUpdate(TimerWeight(w, id), s.timers, t, Next(s, step).timers[t]);
    } else {
      StartEffect(w, s, t, id);
    }
  }

  lemma StartEffect(w: Weights, s: State, t: nat, id: string)
    requires Enabled(s, Start(t)) && Conserving(w)
    ensures var s' := Next(s, Start(t));
      if Serves(s, Start(t)) == Some(id)
      then Measure(w, s', id) <= Measure(w, s, id) && (Decreasing(w) ==> Measure(w, s', id) < Measure(w, s, id))
      else Measure(w, s', id) == Measure(w, s, id)
  {
    var id', over := s.timers[t].project, s.(timers := s.timers[t := s.timers[t].(status := Over)]);
    TotalUpdate(TimerWeight(w, id), s.timers, t, over.timers[t]);
    if !s.closed && id' in s.projects && !s.projects[id'].running { LaunchEffect(w, over, id', id); }
  }

  lemma LaunchEffect(w: Weights, s: State, launched: string, id: string)
    requires launched in s.projects
    ensures Measure(w, Launched(s, launched), id) == Measure(w, s, id) + (if launched == id then w.waiting else 0)
  {
    TotalAppend(GenerationWeight(w, id), s.generations, Generation(launched, Waiting));
  }

  lemma MoveEffect(w: Weights, s: State, step: Step, id: string)
    requires Enabled(s, step) && (step.Acquire? || step.Abandon? || step.GiveBack?) && Conserving(w)
    ensures Serves(s, step) == Some(id) ==> Measure(w, Next(s, step), id) <= Measure(w, s, id)
    ensures Serves(s, step) == Some(id) && Decreasing(w) ==> Measure(w, Next(s, step), id) < Measure(w, s, id)
    ensures Serves(s, step) != Some(id) ==> Measure(w, Next(s, step), id) == Measure(w, s, id)
  {
    var g := step.generation;
    TotalUpdate(GenerationWeight(w, id), s.generations, g, Next(s, step).generations[g]);
  }

  lemma FinishEffect(w: Weights, s: State, g: nat, id: string)
    requires Enabled(s, Finish(g)) && Conserving(w)
    ensures Serves(s, Finish(g)) == Some(id) ==> Measure(w, FinishStep(s, g), id) <= Measure(w, s, id)
    ensures Serves(s, Finish(g)) == Some(id) && Decreasing(w) ==> Measure(w, FinishStep(s, g), id) < Measure(w, s, id)
    ensures Serves(s, Finish(g)) != Some(id) ==> Measure(w, FinishStep(s, g), id) == Measure(w, s, id)
  {
    var project := s.generations[g].project;
    if project in s.projects && s.projects[project].pending && !s.canceled {
      RestartEffect(w, s, g, id);
    } else {
      RestEffect(w, s, g, id);
    }
  }

  lemma RestEffect(w: Weights, s: State, g: nat, id: string)
    requires Enabled(s, Finish(g)) && Conserving(w)
    requires var project := s.generations[g].project;
      !(project in s.projects && s.projects[project].pending && !s.canceled)
    ensures var spent := if s.generations[g].project == id then w.reporting - w.finished else 0;
      Measure(w, FinishStep(s, g), id) + spent == Measure(w, s, id)
  {
    TotalUpdate(GenerationWeight(w, id), s.generations, g, FinishStep(s, g).generations[g]);
  }

  lemma RestartEffect(w: Weights, s: State, g: nat, id: string)
    requires Enabled(s, Finish(g)) && Conserving(w)
    requires var project := s.generations[g].project;
      project in s.projects && s.projects[project].pending && !s.canceled
    ensures var spent := if s.generations[g].project == id then w.reporting - w.finished + w.pending - w.armed else 0;
      Measure(w, FinishStep(s, g), id) + spent == Measure(w, s, id)
  {
    TotalUpdate(GenerationWeight(w, id), s.generations, g, FinishStep(s, g).generations[g]);
    TotalAppend(TimerWeight(w, id), s.timers, Timer(s.generations[g].project, Armed));
  }

  /** One unit of work shrinks what its own project has in flight and leaves every other project alone. */
  lemma WorkEffect(w: Weights, s: State, step: Step, id: string)
    requires Enabled(s, step) && IsWork(step) && Conserving(w)
    ensures Serves(s, step) == Some(id) ==> Measure(w, Next(s, step), id) <= Measure(w, s, id)
    ensures Serves(s, step) == Some(id) && Decreasing(w) ==> Measure(w, Next(s, step), id) < Measure(w, s, id)
    ensures Serves(s, step) != Some(id) ==> Measure(w, Next(s, step), id) == Measure(w, s, id)
  {
    if step.Fire? || step.Start? {
      TimerStepEffect(w, s, step, id);
    } else if step.Finish? {
      FinishEffect(w, s, step.generation, id);
    } else {
      MoveEffect(w, s, step, id);
    }
  }

  lemma StopTimerEffect(w: Weights, timers: seq<Timer>, timer: Option<nat>, id: string)
    ensures Total(TimerWeight(w, id), StopTimer(timers, timer)) <= Total(TimerWeight(w, id), timers)
  {
    if timer.Some? && timer.value < |timers| && timers[timer.value].status == Armed {
      TotalUpdate(TimerWeight(w, id), timers, timer.value, timers[timer.value].(status := Over));
    }
  }

  /** Only an invalidation adds work, at most one pending flag or one timer, and only for its project. */
  lemma OtherEffect(w: Weights, s: State, step: Step, id: string)
    requires Enabled(s, step) && !IsWork(step) && Conserving(w)
    requires step.Invalidate? ==> TimersInv(s)
    ensures Measure(w, Next(s, step), id) <= Measure(w, s, id) + (if step == Invalidate(id) then w.pending else 0)
  {
    match step
    case Invalidate(x) => InvalidateEffect(w, s, x, id);
    case Shut => TotalMonotone(TimerWeight(w, id), StopReferenced(s.projects, s.timers), s.timers);
    case _ =>
  }

  lemma InvalidateEffect(w: Weights, s: State, x: string, id: string)
    requires TimersInv(s) && Conserving(w)
    ensures Measure(w, InvalidateStep(s, x), id) <= Measure(w, s, id) + (if x == id then w.pending else 0)
  {
    var p := if x in s.projects then s.projects[x] else Project(None, false, false);
    if x != "" && !s.closed && !p.running { ArmEffect(w, s, x, p, id); }
  }

  lemma ArmEffect(w: Weights, s: State, x: string, p: Project, id: string)
    requires Conserving(w) && p == if x in s.projects then s.projects[x] else Project(None, false, false)
    requires x != "" && !s.closed && !p.running
    ensures Measure(w, InvalidateStep(s, x), id) <= Measure(w, s, id) + (if x == id then w.pending else 0)
  {
    var s' := InvalidateStep(s, x);
    ArmWeight(w, s.timers, p.timer, x, id);
    assert s'.timers == StopTimer(s.timers, p.timer) + [Timer(x, Armed)] && s'.generations == s.generations;
    assert Pending(s', id) == Pending(s, id);
  }

  lemma ArmWeight(w: Weights, timers: seq<Timer>, timer: Option<nat>, x: string, id: string)
    ensures Total(TimerWeight(w, id), StopTimer(timers, timer) + [Timer(x, Armed)])
      <= Total(TimerWeight(w, id), timers) + (if x == id then w.armed else 0)
  {
    StopTimerEffect(w, timers, timer, id);
    TotalAppend(TimerWeight(w, id), StopTimer(timers, timer), Timer(x, Armed));
  }

  /** The work done for a project along a run: its timer firings, callbacks and goroutine steps. */
  function Work(s: State, steps: seq<Step>, id: string): nat
    decreases |steps|
  {
    if steps == [] then 0
    else
      Work(Next(s, steps[0]), steps[1..], id)
      + (if Enabled(s, steps[0]) && IsWork(steps[0]) && Serves(s, steps[0]) == Some(id) then 1 else 0)
  }

  function Invalidations(steps: seq<Step>, id: string): nat {
    if steps == [] then 0
    else Invalidations(steps[1..], id) + (if steps[0] == Invalidate(id) then 1 else 0)
  }

  const Progress := Weights(5, 4, 3, 2, 1, 0, 5)
  const Credit := Weights(1, 1, 1, 1, 1, 1, 1)

  lemma {:induction false} WorkIsPaidFor(s: State, steps: seq<Step>, id: string)
    requires Inv(s)
    ensures Work(s, steps, id) + Measure(Progress, Exec(s, steps), id)
      <= Measure(Progress, s, id) + 5 * Invalidations(steps, id)
    decreases |steps|
  {
    if steps != [] {
      var step := steps[0];
      NextKeepsInv(s, step);
      WorkIsPaidFor(Next(s, step), steps[1..], id);
      if Enabled(s, step) {
        if IsWork(step) { WorkEffect(Progress, s, step, id); } else { OtherEffect(Progress, s, step, id); }
      }
    }
  }

  /**
   Quiescence: whatever the schedule, at most five units of work per invalidation are ever
   done for a project, and after the last invalidation only what is already in flight is left.
   */
  lemma Quiesces(maxConcurrent: int, before: seq<Step>, after: seq<Step>, id: string)
    ensures Work(Initial(maxConcurrent), before, id) <= 5 * Invalidations(before, id)
    ensures Invalidations(after, id) == 0 ==>
      Work(Exec(Initial(maxConcurrent), before), after, id)
        <= Measure(Progress, Exec(Initial(maxConcurrent), before), id)
  {
    WorkIsPaidFor(Initial(maxConcurrent), before, id);
    InvAlways(maxConcurrent, before);
    WorkIsPaidFor(Exec(Initial(maxConcurrent), before), after, id);
  }

  lemma {:induction false} CreditsAreSpent(s: State, steps: seq<Step>, id: string)
    requires Inv(s)
    ensures Measure(Credit, Exec(s, steps), id) <= Measure(Credit, s, id) + Invalidations(steps, id)
    decreases |steps|
  {
    if steps != [] {
      var step := steps[0];
      NextKeepsInv(s, step);
      CreditsAreSpent(Next(s, step), steps[1..], id);
      if Enabled(s, step) {
        if IsWork(step) { WorkEffect(Credit, s, step, id); } else { OtherEffect(Credit, s, step, id); }
      }
    }
  }

  lemma {:induction false} StartedIsCredit(generations: seq<Generation>, id: string)
    ensures Total(GenerationWeight(Credit, id), generations) == Total(BelongsTo(id), generations)
  {
    if |generations| > 0 {
      StartedIsCredit(generations[..|generations| - 1], id);
    }
  }

  /** Coalescing: a project never has more generations than it had invalidations. */
  lemma Coalesces(maxConcurrent: int, steps: seq<Step>, id: string)
    ensures Started(Exec(Initial(maxConcurrent), steps), id) <= Invalidations(steps, id)
  {
    CreditsAreSpent(Initial(maxConcurrent), steps, id);
    StartedIsCredit(Exec(Initial(maxConcurrent), steps).generations, id);
  }

  /** No deadlock: while anything is in flight for some project, some unit of work is enabled. */
  lemma WorkIsPossible(maxConcurrent: int, steps: seq<Step>, id: string) returns (step: Step)
    requires !Quiet(Exec(Initial(maxConcurrent), steps), id)
    ensures IsWork(step) && Enabled(Exec(Initial(maxConcurrent), steps), step)
  {
    var s := Exec(Initial(maxConcurrent), steps);
    InvAlways(maxConcurrent, steps);
    if HasOutstanding(s, id) {
      var t :| OutstandingFor(s, id, t);
      step := if s.timers[t].status == Armed then Fire(t) else Start(t);
    } else {
      var g :| ActiveIn(s, g) && s.generations[g].project == id;
      step := ActiveCanMove(s, g);
    }
  }

  lemma ActiveCanMove(s: State, g: nat) returns (step: Step)
    requires CountsInv(s) && ActiveIn(s, g)
    ensures IsWork(step) && Enabled(s, step) && !step.Fire? && !step.Start?
  {
    TotalZero(ActiveWeight, s.generations);
    TotalZero(GeneratingWeight, s.generations);
    match s.generations[g].phase
    case Reporting => step := Finish(g);
    case Generating => step := GiveBack(g);
    case Waiting =>
      if s.permits < s.limit {
        step := Acquire(g);
      } else {
        var h :| 0 <= h < |s.generations| && GeneratingWeight(s.generations[h]) != 0;
        step := GiveBack(h);
      }
  }

  // ----- shutdown -----

  lemma {:induction false} NothingStartsAfter(s: State, steps: seq<Step>)
    requires s.closed && forall g :: 0 <= g < |s.generations| ==> s.generations[g].phase == Finished
    ensures Exec(s, steps).generations == s.generations
    decreases |steps|
  {
    if steps != [] {
      NothingStartsAfter(Next(s, steps[0]), steps[1..]);
    }
  }

  /**
   Close returns when it has closed the coordinator and the wait group is empty. From then
   on no generation is running, and none starts whatever callers and timers still do.
   */
  lemma CloseIsFinal(maxConcurrent: int, steps: seq<Step>, later: seq<Step>)
    ensures var s := Exec(Initial(maxConcurrent), steps);
      s.closed && s.wg == 0 ==>
        && (forall g :: 0 <= g < |s.generations| ==> s.generations[g].phase == Finished)
        && Exec(s, later).generations == s.generations
  {
    var s := Exec(Initial(maxConcurrent), steps);
    InvAlways(maxConcurrent, steps);
    if s.closed && s.wg == 0 {
      TotalZero(ActiveWeight, s.generations);
      forall g | 0 <= g < |s.generations| ensures s.generations[g].phase == Finished {
        assert ActiveWeight(s.generations[g]) == 0;
      }
      NothingStartsAfter(s, later);
    }
  }

  /** What is left to a goroutine: to take a permit or give up, to give the permit back, to finish. */
  function TurnsLeft(g: Generation): nat {
    match g.phase case Waiting => 3 case Generating => 2 case Reporting => 1 case Finished => 0
  }

  predicate IsTurn(s: State, step: Step) {
    Enabled(s, step) && (step.Acquire? || step.Abandon? || step.GiveBack? || step.Finish?)
  }

  /** How many turns the goroutines take along a run. */
  function Turns(s: State, steps: seq<Step>): nat
    decreases |steps|
  {
    if steps == [] then 0 else (if IsTurn(s, steps[0]) then 1 else 0) + Turns(Next(s, steps[0]), steps[1..])
  }

  lemma TurnSpends(s: State, step: Step)
    requires IsTurn(s, step)
    ensures Total(TurnsLeft, Next(s, step).generations) < Total(TurnsLeft, s.generations)
  {
    TotalUpdate(TurnsLeft, s.generations, step.generation, Next(s, step).generations[step.generation]);
  }

  lemma {:induction false} TurnsAreBounded(s: State, steps: seq<Step>)
    requires s.closed
    ensures Exec(s, steps).closed
    ensures Turns(s, steps) + Total(TurnsLeft, Exec(s, steps).generations) <= Total(TurnsLeft, s.generations)
    decreases |steps|
  {
    if steps != [] {
      if IsTurn(s, steps[0]) { TurnSpends(s, steps[0]); }
      TurnsAreBounded(Next(s, steps[0]), steps[1..]);
    }
  }

  lemma NoTurnsMeansNoneWaitedFor(s: State)
    requires CountsInv(s)
    ensures Total(TurnsLeft, s.generations) == 0 <==> s.wg == 0
  {
    TotalZero(TurnsLeft, s.generations);
    TotalZero(ActiveWeight, s.generations);
    assert forall g :: 0 <= g < |s.generations| ==>
      (TurnsLeft(s.generations[g]) == 0 <==> ActiveWeight(s.generations[g]) == 0);
  }

  /**
   Close does return: once the coordinator is closed its goroutines take at most the turns that
   are left to them, whatever else happens in between, and then the wait group is empty. Until
   it is, one of them can take a turn.
   */
  lemma CloseReturns(maxConcurrent: int, steps: seq<Step>, later: seq<Step>)
    requires Exec(Initial(maxConcurrent), steps).closed
    ensures var s := Exec(Initial(maxConcurrent), steps); var s' := Exec(s, later);
      && Turns(s, later) <= Total(TurnsLeft, s.generations)
      && (Turns(s, later) == Total(TurnsLeft, s.generations) ==> s'.wg == 0)
      && (s'.wg > 0 ==> exists step :: IsTurn(s', step))
  {
    var s := Exec(Initial(maxConcurrent), steps);
    InvAlways(maxConcurrent, steps);
    TurnsAreBounded(s, later);
    ExecKeepsInv(s, later);
    var s' := Exec(s, later);
    NoTurnsMeansNoneWaitedFor(s');
    if s'.wg > 0 {
      TotalZero(ActiveWeight, s'.generations);
      var g :| 0 <= g < |s'.generations| && ActiveWeight(s'.generations[g]) != 0;
      var step := ActiveCanMove(s', g);
      assert IsTurn(s', step);
    }
  }
}
