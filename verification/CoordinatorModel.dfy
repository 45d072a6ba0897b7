/**
 The debounce and generation coordinator as a state machine. Each `Step` is one
 critical section, or one channel operation, of the coordinator; a run is any
 sequence of steps, so a statement about all sequences is a statement
 about every interleaving of callers, timer callbacks and generation goroutines.
 */
module CoordinatorModel {
  import opened Collections

  // Stopping an armed timer makes it Over; stopping a Fired one has no effect,
  // because its callback is already on its way to the mutex.
  datatype TimerStatus = Armed | Fired | Over
  datatype Timer = Timer(project: string, status: TimerStatus) {
    predicate Outstanding() { status != Over }
  }

  // A generation goroutine waits for a permit, generates, gives the permit
  // back and reports, and then runs its finishing critical section.
  datatype Phase = Waiting | Generating | Reporting | Finished
  datatype Generation = Generation(project: string, phase: Phase) {
    predicate Active() { phase != Finished }
  }

  datatype Project = Project(timer: Option<nat>, running: bool, pending: bool)

  // `dirty` is a history variable: the projects invalidated since the last
  // start of one of their generations. No step reads it.
  datatype State = State(
    limit: nat,
    projects: map<string, Project>,
    canceled: bool,
    closed: bool,
    permits: nat,
    wg: nat,
    timers: seq<Timer>,
    generations: seq<Generation>,
    dirty: set<string>)

  datatype Step =
    | Invalidate(project: string)
    | Fire(timer: nat)
    | Start(timer: nat)
    | Acquire(generation: nat)
    | Abandon(generation: nat)
    | GiveBack(generation: nat)
    | Finish(generation: nat)
    | Cancel
    | Shut

  function Initial(maxConcurrent: int): State {
    State(if maxConcurrent < 1 then 1 else maxConcurrent, map[], false, false, 0, 0, [], [], {})
  }

  // ----- the steps -----

  predicate InPhase(s: State, g: nat, phase: Phase) {
    g < |s.generations| && s.generations[g].phase == phase
  }

  predicate Enabled(s: State, step: Step) {
    match step
    case Invalidate(id) => true
    case Fire(t) => t < |s.timers| && s.timers[t].status == Armed
    case Start(t) => t < |s.timers| && s.timers[t].status == Fired
    case Acquire(g) => InPhase(s, g, Waiting) && s.permits < s.limit
    case Abandon(g) => InPhase(s, g, Waiting) && s.canceled
    case GiveBack(g) => InPhase(s, g, Generating) && s.permits > 0
    case Finish(g) => InPhase(s, g, Reporting) && s.wg > 0
    case Cancel => true
    case Shut => s.canceled
  }

  function StopTimer(timers: seq<Timer>, timer: Option<nat>): seq<Timer> {
    if timer.Some? && timer.value < |timers| && timers[timer.value].status == Armed
    then timers[timer.value := timers[timer.value].(status := Over)]
    else timers
  }

  function SetPhase(s: State, g: nat, phase: Phase): State
    requires g < |s.generations|
  {
    s.(generations := s.generations[g := s.generations[g].(phase := phase)])
  }

  function InvalidateStep(s: State, id: string): State {
    if id == "" || s.closed then s
    else
      var p := if id in s.projects then s.projects[id] else Project(None, false, false);
      if p.running then
        s.(projects := s.projects[id := p.(pending := true)], dirty := s.dirty + {id})
      else
        s.(timers := StopTimer(s.timers, p.timer) + [Timer(id, Armed)],
           projects := s.projects[id := p.(timer := Some(|s.timers|))],
           dirty := s.dirty + {id})
  }

  function StartStep(s: State, t: nat): State
    requires Enabled(s, Start(t))
  {
    var id := s.timers[t].project;
    var s' := s.(timers := s.timers[t := s.timers[t].(status := Over)]);
    if s.closed || id !in s.projects || s.projects[id].running then s' else Launched(s', id)
  }

  /** The project runs, and a goroutine waits for a permit to generate for it. */
  function Launched(s: State, id: string): State
    requires id in s.projects
  {
    s.(projects := s.projects[id := s.projects[id].(timer := None, running := true)],
       wg := s.wg + 1,
       generations := s.generations + [Generation(id, Waiting)],
       dirty := s.dirty - {id})
  }

  function FinishStep(s: State, g: nat): State
    requires Enabled(s, Finish(g))
  {
    var id := s.generations[g].project;
    var s' := SetPhase(s, g, Finished).(wg := s.wg - 1);
    if id !in s.projects then s' else AtRest(s', id)
  }

  /** The project runs no more, and gets a timer if it was invalidated meanwhile. */
  function AtRest(s: State, id: string): State
    requires id in s.projects
  {
    var p := s.projects[id].(running := false);
    if p.pending && !s.canceled then
      s.(projects := s.projects[id := p.(pending := false, timer := Some(|s.timers|))],
         timers := s.timers + [Timer(id, Armed)])
    else
      s.(projects := s.projects[id := p])
  }

  // The timers that Close reaches are those a project still refers to.
  predicate Referenced(projects: map<string, Project>, timers: seq<Timer>, t: nat)
    requires t < |timers|
  {
    timers[t].project in projects && projects[timers[t].project].timer == Some(t)
  }

  function StopReferenced(projects: map<string, Project>, timers: seq<Timer>): seq<Timer> {
    seq(|timers|, t requires 0 <= t < |timers| =>
      if Referenced(projects, timers, t) && timers[t].status == Armed
      then timers[t].(status := Over) else timers[t])
  }

  function Next(s: State, step: Step): State {
    if !Enabled(s, step) then s else
    match step
    case Invalidate(id) => InvalidateStep(s, id)
    case Fire(t) => s.(timers := s.timers[t := s.timers[t].(status := Fired)])
    case Start(t) => StartStep(s, t)
    case Acquire(g) => SetPhase(s, g, Generating).(permits := s.permits + 1)
    case Abandon(g) => SetPhase(s, g, Reporting)
    case GiveBack(g) => SetPhase(s, g, Reporting).(permits := s.permits - 1)
    case Finish(g) => FinishStep(s, g)
    case Cancel => s.(canceled := true)
    case Shut => s.(closed := true, timers := StopReferenced(s.projects, s.timers))
  }

  /** Running a schedule: a step that is not enabled when its turn comes is skipped. */
  function Exec(s: State, steps: seq<Step>): State
    decreases |steps|
  {
    if steps == [] then s else Exec(Next(s, steps[0]), steps[1..])
  }

  lemma {:induction false} ExecConcat(s: State, first: seq<Step>, second: seq<Step>)
    ensures Exec(s, first + second) == Exec(Exec(s, first), second)
    decreases |first|
  {
    if first == [] {
      assert first + second == second;
    } else {
      assert (first + second)[1..] == first[1..] + second;
      ExecConcat(Next(s, first[0]), first[1..], second);
    }
  }

  lemma ExecAppend(s: State, steps: seq<Step>, step: Step)
    ensures Exec(s, steps + [step]) == Next(Exec(s, steps), step)
  {
    ExecConcat(s, steps, [step]);
    assert Exec(Exec(s, steps), [step]) == Exec(Next(Exec(s, steps), step), []);
  }

  // ----- the inductive invariant -----

  function ActiveWeight(g: Generation): nat { if g.Active() then 1 else 0 }
  function GeneratingWeight(g: Generation): nat { if g.phase == Generating then 1 else 0 }

  ghost predicate TimersInv(s: State) {
    && (forall t :: 0 <= t < |s.timers| ==> s.timers[t].project in s.projects)
    && (forall id :: id in s.projects && s.projects[id].timer.Some? ==>
          && s.projects[id].timer.value < |s.timers|
          && s.timers[s.projects[id].timer.value].project == id)
  }

  ghost predicate ActiveIn(s: State, g: int) {
    0 <= g < |s.generations| && s.generations[g].Active()
  }

  ghost predicate HasActive(s: State, id: string) {
    exists g :: ActiveIn(s, g) && s.generations[g].project == id
  }

  predicate Running(s: State, id: string) {
    id in s.projects && s.projects[id].running
  }

  /** At most one active generation per project, exactly when the project is marked running. */
  ghost predicate ExclusionInv(s: State) {
    && (forall g :: ActiveIn(s, g) ==> Running(s, s.generations[g].project))
    && (forall g, h :: ActiveIn(s, g) && ActiveIn(s, h) && g != h ==>
          s.generations[g].project != s.generations[h].project)
    && (forall id :: Running(s, id) ==> HasActive(s, id))
    && (!s.canceled ==> forall id :: id in s.projects && s.projects[id].pending ==> Running(s, id))
  }

  /** Permits taken are the goroutines between acquire and release; the wait group counts active ones. */
  ghost predicate CountsInv(s: State) {
    && 1 <= s.limit
    && s.permits == Total(GeneratingWeight, s.generations) <= s.limit
    && s.wg == Total(ActiveWeight, s.generations)
    && (s.closed ==> s.canceled)
  }

  ghost predicate OutstandingFor(s: State, id: string, t: int) {
    0 <= t < |s.timers| && s.timers[t].Outstanding() && s.timers[t].project == id
  }

  ghost predicate HasOutstanding(s: State, id: string) {
    exists t :: OutstandingFor(s, id, t)
  }

  /** What a project still owes: an idle one a timer callback, a running one its pending flag. */
  ghost predicate Owed(s: State, id: string) {
    && id in s.projects
    && if s.projects[id].running then s.projects[id].pending else HasOutstanding(s, id)
  }

  ghost predicate NoLossInv(s: State) {
    !s.canceled ==> forall id :: id in s.dirty ==> Owed(s, id)
  }

  ghost predicate Inv(s: State) {
    TimersInv(s) && ExclusionInv(s) && CountsInv(s) && NoLossInv(s)
  }
}
