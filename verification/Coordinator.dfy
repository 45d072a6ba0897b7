/**
 The coordinator as an object whose methods are its critical sections and channel
 operations. Timers and goroutines belong to the runtime; they are kept as tables here.
 Each method is proved to take exactly the step of the state machine it stands for,
 so everything proved about runs of CoordinatorModel holds of its methods in any order.
 */
module Coordinator {
  import opened Collections
  import opened CoordinatorModel
  import opened CoordinatorProofs

  class ProjectState {
    ghost const project: string  // the name it is kept under
    var timer: Option<nat>
    var running: bool
    var pending: bool

    constructor (ghost project: string)
      ensures this.project == project && Value() == Project(None, false, false)
    {
      this.project := project;
      timer, running, pending := None, false, false;
    }

    function Value(): Project
      reads this
    {
      Project(timer, running, pending)
    }
  }

  ghost function Records(projects: map<string, ProjectState>): (records: map<string, Project>)
    reads projects.Values
    ensures records.Keys == projects.Keys && forall id :: id in projects ==> records[id] == projects[id].Value()
  {
    map id | id in projects :: projects[id].Value()
  }

  /** A project that is created on its first use is marked or armed as one that was idle. */
  lemma CreatedFirst(s: State, id: string, p: Project)
    requires p == if id in s.projects then s.projects[id] else Project(None, false, false)
    requires id != "" && !s.closed
    ensures InvalidateStep(s.(projects := s.projects[id := p]), id) == InvalidateStep(s, id)
  {
    var pending, armed := p.(pending := true), p.(timer := Some(|s.timers|));
    assert s.projects[id := p][id := pending] == s.projects[id := pending];
    assert s.projects[id := p][id := armed] == s.projects[id := armed];
  }

  class Coordinator {
    const limit: nat
    var projects: map<string, ProjectState>
    var canceled: bool
    var closed: bool
    var permits: nat
    var wg: nat
    var timers: seq<Timer>
    var generations: seq<Generation>
    ghost var dirty: set<string>

    ghost function View(): State
      reads this, projects.Values
    {
      State(limit, Records(projects), canceled, closed, permits, wg, timers, generations, dirty)
    }

    /** Distinct projects have distinct records. */
    ghost predicate Valid()
      reads this
    {
      forall id :: id in projects ==> projects[id].project == id
    }

    /** Writing to one record changes one entry of the view. */
    twostate lemma OneRecordChanged(id: string)
      requires projects == old(projects) && id in projects && old(Valid())
      requires forall x :: x in projects && x != id ==> unchanged(projects[x])
      ensures View().projects == old(View()).projects[id := projects[id].Value()]
    {
    }

    constructor (maxConcurrent: int)
      ensures Valid() && View() == Initial(maxConcurrent)
      ensures fresh(projects.Values)
    {
      limit := if maxConcurrent < 1 then 1 else maxConcurrent;
      projects, canceled, closed, permits, wg, timers, generations, dirty := map[], false, false, 0, 0, [], [], {};
    }

    /** The record of a project, created idle on its first use. */
    method FindOrCreate(id: string) returns (p: ProjectState)
      requires Valid()
      modifies this`projects
      ensures Valid() && id in projects && projects[id] == p
      ensures if id in old(projects) then projects == old(projects) else fresh(p) && projects == old(projects)[id := p]
      ensures p.Value() == if id in old(projects) then old(projects[id].Value()) else Project(None, false, false)
      ensures View() == old(View()).(projects := old(View()).projects[id := p.Value()])
    {
      if id !in projects {
        var created := new ProjectState(id);
        projects := projects[id := created];
      }
      p := projects[id];
      assert View().projects == old(View()).projects[id := p.Value()];
    }

    /** Marks a running project pending, and re-arms the timer of an idle one. */
    method MarkOrArm(id: string)
      requires Valid() && id in projects && id != "" && !closed
      modifies this, projects[id]
      ensures Valid() && projects == old(projects)
      ensures View() == InvalidateStep(old(View()), id)
    {
      var p := projects[id];
      dirty := dirty + {id};
      if p.running {
        p.pending := true;
      } else {
        p.timer, timers := Some(|timers|), StopTimer(timers, p.timer) + [Timer(id, Armed)];
      }
      OneRecordChanged(id);
    }

    method Invalidate(id: string)
      requires Valid()
      modifies this, projects.Values
      ensures Valid() && fresh(projects.Values - old(projects.Values))
      ensures View() == Next(old(View()), Step.Invalidate(id))
    {
      if id != "" && !closed {
        ghost var before := View();
        var p := FindOrCreate(id);
        CreatedFirst(before, id, p.Value());
        MarkOrArm(id);
      }
    }

    method Fire(t: nat)
      requires Valid() && Enabled(View(), Step.Fire(t))
      modifies this
      ensures Valid() && projects == old(projects) && View() == Next(old(View()), Step.Fire(t))
    {
      timers := timers[t := timers[t].(status := Fired)];
    }

    /** The timer callback: the critical section that may launch a generation goroutine. */
    method Start(t: nat)
      requires Valid() && Enabled(View(), Step.Start(t))
      modifies this, projects.Values
      ensures Valid() && projects == old(projects)
      ensures View() == Next(old(View()), Step.Start(t))
    {
      var id := timers[t].project;
      timers := timers[t := timers[t].(status := Over)];
      if !closed && id in projects && !projects[id].running {
        Launch(id);
      }
    }

    /** An idle project is running from now on. */
    method Launch(id: string)
      requires Valid() && id in projects && !projects[id].running
      modifies this`wg, this`generations, this`dirty, projects[id]
      ensures View() == Launched(old(View()), id)
    {
      var p := projects[id];
      wg, generations, dirty, p.timer, p.running :=
        wg + 1, generations + [Generation(id, Waiting)], dirty - {id}, None, true;
      OneRecordChanged(id);
    }

    method Acquire(g: nat)
      requires Valid() && Enabled(View(), Step.Acquire(g))
      modifies this
      ensures Valid() && projects == old(projects) && View() == Next(old(View()), Step.Acquire(g))
    {
      permits := permits + 1;
      generations := generations[g := generations[g].(phase := Generating)];
    }

    /** The goroutine sees the canceled context instead of getting a permit. */
    method Abandon(g: nat)
      requires Valid() && Enabled(View(), Step.Abandon(g))
      modifies this
      ensures Valid() && projects == old(projects) && View() == Next(old(View()), Step.Abandon(g))
    {
      generations := generations[g := generations[g].(phase := Reporting)];
    }

    method GiveBack(g: nat)
      requires Valid() && Enabled(View(), Step.GiveBack(g))
      modifies this
      ensures Valid() && projects == old(projects) && View() == Next(old(View()), Step.GiveBack(g))
    {
      permits := permits - 1;
      generations := generations[g := generations[g].(phase := Reporting)];
    }

    /** The goroutine's last critical section, together with its wait group decrement. */
    method Finish(g: nat)
      requires Valid() && Enabled(View(), Step.Finish(g))
      modifies this, projects.Values
      ensures Valid() && projects == old(projects)
      ensures View() == Next(old(View()), Step.Finish(g))
    {
      var id := generations[g].project;
      generations, wg := generations[g := generations[g].(phase := Finished)], wg - 1;
      if id in projects {
        Rest(id);
      }
    }

    /** A project is not running any more; it gets a timer if it was invalidated meanwhile. */
    method Rest(id: string)
      requires Valid() && id in projects
      modifies this`timers, projects[id]
      ensures View() == AtRest(old(View()), id)
    {
      var p := projects[id];
      p.running := false;
      if p.pending && !canceled {
        p.pending, p.timer, timers := false, Some(|timers|), timers + [Timer(id, Armed)];
      }
      OneRecordChanged(id);
    }

    method Cancel()
      requires Valid()
      modifies this
      ensures Valid() && projects == old(projects) && View() == Next(old(View()), Step.Cancel)
    {
      canceled := true;
    }

    /** Close's critical section: mark closed and stop every timer a project still refers to. */
    method Shut()
      requires Valid() && TimersInv(View()) && Enabled(View(), Step.Shut)
      modifies this
      ensures Valid() && projects == old(projects) && View() == Next(old(View()), Step.Shut)
    {
      ghost var before := View();
      closed := true;
      ghost var armed := timers;
      var remaining := projects.Keys;
      while remaining != {}
        invariant remaining <= projects.Keys && PartlyStopped(before.projects, armed, timers, remaining)
        modifies this`timers
        decreases remaining
      {
        var id :| id in remaining;
        assert before.projects[id] == projects[id].Value();
        StopsOne(before, armed, timers, remaining, id);
        timers := StopTimer(timers, projects[id].timer);
        remaining := remaining - {id};
      }
      assert PartlyStopped(before.projects, armed, timers, {});
      assert timers == StopReferenced(before.projects, armed);
    }
  }

  /** The timers of all projects but the remaining ones have been stopped. */
  predicate PartlyStopped(projects: map<string, Project>, armed: seq<Timer>, timers: seq<Timer>,
                          remaining: set<string>)
  {
    && |timers| == |armed|
    && forall t :: 0 <= t < |armed| ==>
         timers[t] == if Referenced(projects, armed, t) && armed[t].project !in remaining
                      then StopReferenced(projects, armed)[t] else armed[t]
  }

  lemma StopsOne(s: State, armed: seq<Timer>, timers: seq<Timer>, remaining: set<string>, id: string)
    requires TimersInv(s) && armed == s.timers && id in remaining && id in s.projects
    requires PartlyStopped(s.projects, armed, timers, remaining)
    ensures PartlyStopped(s.projects, armed, StopTimer(timers, s.projects[id].timer), remaining - {id})
  {
  }

  /** Any schedule of the methods drives the object through the corresponding run of the machine. */
  method Drive(c: Coordinator, steps: seq<Step>)
    requires c.Valid() && Inv(c.View())
    modifies c, c.projects.Values
    ensures c.Valid() && c.View() == Exec(old(c.View()), steps)
  {
    var i := 0;
    while i < |steps|
      invariant 0 <= i <= |steps| && c.Valid()
      invariant fresh(c.projects.Values - old(c.projects.Values))
      invariant c.View() == Exec(old(c.View()), steps[..i])
    {
      ExecKeepsInv(old(c.View()), steps[..i]);
      ExecAppend(old(c.View()), steps[..i], steps[i]);
      assert steps[..i + 1] == steps[..i] + [steps[i]];
      Take(c, steps[i]);
      i := i + 1;
    }
    assert steps[..i] == steps;
  }

  /** The method for one step, when it is enabled. */
  method Take(c: Coordinator, step: Step)
    requires c.Valid() && TimersInv(c.View())
    modifies c, c.projects.Values
    ensures c.Valid() && fresh(c.projects.Values - old(c.projects.Values))
    ensures c.View() == Next(old(c.View()), step)
  {
    var enabled := match step
      case Invalidate(_) => true
      case Fire(t) => t < |c.timers| && c.timers[t].status == Armed
      case Start(t) => t < |c.timers| && c.timers[t].status == Fired
      case Acquire(g) => g < |c.generations| && c.generations[g].phase == Waiting && c.permits < c.limit
      case Abandon(g) => g < |c.generations| && c.generations[g].phase == Waiting && c.canceled
      case GiveBack(g) => g < |c.generations| && c.generations[g].phase == Generating && c.permits > 0
      case Finish(g) => g < |c.generations| && c.generations[g].phase == Reporting && c.wg > 0
      case Cancel => true
      case Shut => c.canceled;
    if enabled {
      match step
      case Invalidate(id) => c.Invalidate(id);
      case Fire(t) => c.Fire(t);
      case Start(t) => c.Start(t);
      case Acquire(g) => c.Acquire(g);
      case Abandon(g) => c.Abandon(g);
      case GiveBack(g) => c.GiveBack(g);
      case Finish(g) => c.Finish(g);
      case Cancel => c.Cancel();
      case Shut => c.Shut();
    }
  }
}
