/** Safety and quiescence of the coordinator, for every run. */
module CoordinatorProofs {
  import opened Collections
  import opened CoordinatorModel

  // ----- frames: what a step may change without touching a part of the invariant -----

  /** Same goroutines and same flags: exclusion is untouched. */
  lemma ExclusionFrame(s: State, s': State)
    requires ExclusionInv(s) && s'.generations == s.generations
    requires forall id :: Running(s', id) <==> Running(s, id)
    requires !s'.canceled ==> forall id :: id in s'.projects && s'.projects[id].pending ==> Running(s', id)
    ensures ExclusionInv(s')
  {
    assert forall g :: ActiveIn(s', g) <==> ActiveIn(s, g);
    forall id | Running(s', id) ensures HasActive(s', id) {
      assert HasActive(s, id);
      var g :| ActiveIn(s, g) && s.generations[g].project == id;
      assert ActiveIn(s', g);
    }
  }

  /** An unchanged project whose outstanding callbacks survive is still owed. */
  lemma OwedFrame(s: State, s': State, id: string)
    requires Owed(s, id) && id in s'.projects && s'.projects[id] == s.projects[id]
    requires !s.projects[id].running ==> forall t :: OutstandingFor(s, id, t) ==> OutstandingFor(s', id, t)
    ensures Owed(s', id)
  {
    if !s.projects[id].running {
      var t :| OutstandingFor(s, id, t);
      assert OutstandingFor(s', id, t);
    }
  }

  lemma StopTimerKeeps(timers: seq<Timer>, timer: Option<nat>)
    ensures |StopTimer(timers, timer)| == |timers|
    ensures forall t :: 0 <= t < |timers| ==>
      StopTimer(timers, timer)[t].project == timers[t].project
      && (timers[t].status == Fired ==> StopTimer(timers, timer)[t].status == Fired)
      && (Some(t) != timer ==> StopTimer(timers, timer)[t] == timers[t])
  {
  }

  // ----- each step keeps the invariant -----

  lemma InvalidateKeepsNoLoss(s: State, id: string)
    requires TimersInv(s) && NoLossInv(s)
    ensures TimersInv(InvalidateStep(s, id)) && NoLossInv(InvalidateStep(s, id))
  {
    var s' := InvalidateStep(s, id);
    if id != "" && !s.closed {
      var p := if id in s.projects then s.projects[id] else Project(None, false, false);
      StopTimerKeeps(s.timers, p.timer);
      forall x | !s.canceled && x in s'.dirty ensures Owed(s', x) {
        if x == id {
          if !p.running { assert OutstandingFor(s', id, |s.timers|); }
        } else {
          OwedFrame(s, s', x);
        }
      }
    }
  }

  lemma InvalidateKeepsInv(s: State, id: string)
    requires Inv(s)
    ensures Inv(InvalidateStep(s, id))
  {
    InvalidateKeepsNoLoss(s, id);
    ExclusionFrame(s, InvalidateStep(s, id));
  }

  lemma FireKeepsInv(s: State, t: nat)
    requires Inv(s) && Enabled(s, Fire(t))
    ensures Inv(Next(s, Fire(t)))
  {
    var s' := Next(s, Fire(t));
    ExclusionFrame(s, s');
    forall x | !s.canceled && x in s'.dirty ensures Owed(s', x) {
      OwedFrame(s, s', x);
    }
  }

  lemma StartKeepsNoLoss(s: State, t: nat)
    requires TimersInv(s) && NoLossInv(s) && Enabled(s, Start(t)) && (s.closed ==> s.canceled)
    ensures TimersInv(StartStep(s, t)) && NoLossInv(StartStep(s, t))
  {
    var s' := StartStep(s, t);
    var id := s.timers[t].project;
    forall x | !s.canceled && x in s'.dirty ensures Owed(s', x) {
      if x == id {
        assert Owed(s, x);
      } else {
        OwedFrame(s, s', x);
      }
    }
  }

  lemma LaunchKeepsExclusion(s: State, s': State, id: string)
    requires s'.canceled == s.canceled
    requires ExclusionInv(s) && !Running(s, id) && Running(s', id)
    requires s'.generations == s.generations + [Generation(id, Waiting)]
    requires forall x :: x != id ==> (x in s'.projects <==> x in s.projects)
    requires forall x :: x != id && x in s.projects ==> s'.projects[x] == s.projects[x]
    ensures ExclusionInv(s')
  {
    var newest := |s.generations|;
    assert ActiveIn(s', newest);
    assert forall g :: g != newest ==> (ActiveIn(s', g) <==> ActiveIn(s, g));
    forall x | Running(s', x) ensures HasActive(s', x) {
      if x != id {
        assert Running(s, x);
        var g :| ActiveIn(s, g) && s.generations[g].project == x;
        assert ActiveIn(s', g);
      }
    }
  }

  lemma StartKeepsExclusion(s: State, t: nat)
    requires ExclusionInv(s) && Enabled(s, Start(t))
    ensures ExclusionInv(StartStep(s, t))
  {
    var id := s.timers[t].project;
    if s.closed || id !in s.projects || s.projects[id].running {
      ExclusionFrame(s, StartStep(s, t));
    } else {
      LaunchKeepsExclusion(s, StartStep(s, t), id);
    }
  }

  lemma StartKeepsCounts(s: State, t: nat)
    requires CountsInv(s) && Enabled(s, Start(t))
    ensures CountsInv(StartStep(s, t))
  {
    var generation := Generation(s.timers[t].project, Waiting);
    TotalAppend(GeneratingWeight, s.generations, generation);
    TotalAppend(ActiveWeight, s.generations, generation);
  }

  lemma StartKeepsInv(s: State, t: nat)
    requires Inv(s) && Enabled(s, Start(t))
    ensures Inv(StartStep(s, t))
  {
    StartKeepsNoLoss(s, t);
    StartKeepsCounts(s, t);
    StartKeepsExclusion(s, t);
  }

  lemma MoveKeepsExclusion(s: State, s': State, g: nat, phase: Phase)
    requires ExclusionInv(s) && ActiveIn(s, g) && phase != Finished
    requires s'.generations == SetPhase(s, g, phase).generations && s'.projects == s.projects
    requires s'.canceled == s.canceled
    ensures ExclusionInv(s')
  {
    assert forall h :: ActiveIn(s', h) <==> ActiveIn(s, h);
    assert forall h :: ActiveIn(s, h) ==> s'.generations[h].project == s.generations[h].project;
    forall x | Running(s', x) ensures HasActive(s', x) {
      assert Running(s, x);
      var h :| ActiveIn(s, h) && s.generations[h].project == x;
      assert ActiveIn(s', h);
    }
  }

  lemma MoveKeepsInv(s: State, step: Step)
    requires Inv(s) && Enabled(s, step)
    requires step.Acquire? || step.Abandon? || step.GiveBack?
    ensures Inv(Next(s, step))
  {
    var s' := Next(s, step);
    var g := step.generation;
    TotalUpdate(GeneratingWeight, s.generations, g, s'.generations[g]);
    TotalUpdate(ActiveWeight, s.generations, g, s'.generations[g]);
    assert ActiveIn(s, g);
    MoveKeepsExclusion(s, s', g, s'.generations[g].phase);
    forall x | !s.canceled && x in s'.dirty ensures Owed(s', x) {
      OwedFrame(s, s', x);
    }
  }

  lemma FinishEndsOne(s: State, g: nat)
    requires Enabled(s, Finish(g))
    ensures var s' := FinishStep(s, g);
      && (forall h :: ActiveIn(s', h) <==> ActiveIn(s, h) && h != g)
      && (forall h :: ActiveIn(s, h) ==> h < |s'.generations| && s'.generations[h].project == s.generations[h].project)
  {
  }

  lemma FinishKeepsExclusion(s: State, g: nat)
    requires ExclusionInv(s) && Enabled(s, Finish(g))
    ensures ExclusionInv(FinishStep(s, g))
  {
    var s' := FinishStep(s, g);
    var id := s.generations[g].project;
    assert ActiveIn(s, g) && Running(s, id);
    FinishEndsOne(s, g);
    forall x | Running(s', x) ensures HasActive(s', x) {
      assert x != id && Running(s, x);
      var h :| ActiveIn(s, h) && s.generations[h].project == x;
      assert ActiveIn(s', h);
    }
  }

  lemma FinishKeepsNoLoss(s: State, g: nat)
    requires TimersInv(s) && NoLossInv(s) && Enabled(s, Finish(g))
    requires Running(s, s.generations[g].project)
    ensures TimersInv(FinishStep(s, g)) && NoLossInv(FinishStep(s, g))
  {
    var s' := FinishStep(s, g);
    var id := s.generations[g].project;
    forall x | !s.canceled && x in s'.dirty ensures Owed(s', x) {
      assert Owed(s, x);
      if x == id {
        assert OutstandingFor(s', id, |s.timers|);
      } else {
        OwedFrame(s, s', x);
      }
    }
  }

  lemma FinishKeepsInv(s: State, g: nat)
    requires Inv(s) && Enabled(s, Finish(g))
    ensures Inv(FinishStep(s, g))
  {
    var s' := FinishStep(s, g);
    TotalUpdate(GeneratingWeight, s.generations, g, s'.generations[g]);
    TotalUpdate(ActiveWeight, s.generations, g, s'.generations[g]);
    assert ActiveIn(s, g);
    FinishKeepsExclusion(s, g);
    FinishKeepsNoLoss(s, g);
  }

  lemma CloseKeepsInv(s: State, step: Step)
    requires Inv(s) && Enabled(s, step) && (step.Cancel? || step.Shut?)
    ensures Inv(Next(s, step))
  {
    ExclusionFrame(s, Next(s, step));
  }

  lemma NextKeepsInv(s: State, step: Step)
    requires Inv(s)
    ensures Inv(Next(s, step))
  {
    if Enabled(s, step) {
      match step
      case Invalidate(id) => InvalidateKeepsInv(s, id);
      case Fire(t) => FireKeepsInv(s, t);
      case Start(t) => StartKeepsInv(s, t);
      case Acquire(_) => MoveKeepsInv(s, step);
      case Abandon(_) => MoveKeepsInv(s, step);
      case GiveBack(_) => MoveKeepsInv(s, step);
      case Finish(g) => FinishKeepsInv(s, g);
      case Cancel => CloseKeepsInv(s, step);
      case Shut => CloseKeepsInv(s, step);
    }
  }

  lemma {:induction false} ExecKeepsInv(s: State, steps: seq<Step>)
    requires Inv(s)
    ensures Inv(Exec(s, steps))
    decreases |steps|
  {
    if steps != [] {
      NextKeepsInv(s, steps[0]);
      ExecKeepsInv(Next(s, steps[0]), steps[1..]);
    }
  }
}
