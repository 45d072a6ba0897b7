/** What an invalidation or another configuration means for a session, told from the run alone. */
module ManagerDismissal {
  import opened Collections
  import opened ManagerModel
  import opened ManagerInvariant
  import opened ManagerProofs
  import opened ManagerClaims
  import opened ManagerTheorems

  /** The session in the table is invalidated, or asked for with another configuration. */
  predicate Dismisses(s: State, step: Step, x: nat) {
    InTable(s, x) &&
    match step
    case Invalidate(id) => id == s.all[x].config.id
    case ClientCall(cfg) => Normalize(cfg).id == s.all[x].config.id && Normalize(cfg) != s.all[x].config
    case _ => false
  }

  /** That has happened to the session in this run. */
  ghost predicate Dismissed(now: int, steps: seq<Step>, x: nat) {
    exists i :: 0 <= i < |steps| && DismissesAt(now, steps, i, x)
  }

  predicate DismissesAt(now: int, steps: seq<Step>, i: nat, x: nat)
    requires i < |steps|
  {
    Dismisses(Exec(Initial(now), steps[..i]), steps[i], x)
  }

  lemma LastStep(now: int, before: seq<Step>, step: Step)
    ensures Exec(Initial(now), before + [step]) == Next(Exec(Initial(now), before), step)
  {
    ExecConcat(Initial(now), before, [step]);
    assert Exec(Exec(Initial(now), before), [step]) == Exec(Next(Exec(Initial(now), before), step), []);
  }

  lemma DismissedOneMore(now: int, before: seq<Step>, step: Step, x: nat)
    ensures Dismissed(now, before + [step], x)
       <==> Dismissed(now, before, x) || Dismisses(Exec(Initial(now), before), step, x)
  {
    var steps, n := before + [step], |before|;
    assert steps[..n] == before;
    forall i | 0 <= i < n ensures DismissesAt(now, steps, i, x) == DismissesAt(now, before, i, x) {
      assert steps[..i] == before[..i];
    }
    assert DismissesAt(now, steps, n, x) == Dismisses(Exec(Initial(now), before), step, x);
  }

  // ----- the mark on a session says exactly that -----

  /** How one step treats the mark of a session that is in the table after it. */
  predicate MarksRightly(s: State, s': State, step: Step, x: nat) {
    InTable(s', x) ==> (s'.all[x].stale <==> InTable(s, x) && (s.all[x].stale || Dismisses(s, step, x)))
  }

  lemma ClientMarks(s: State, cfg: Config, x: nat)
    requires Inv(s)
    ensures MarksRightly(s, ClientStep(s, Normalize(cfg)), ClientCall(cfg), x)
  {
    if x < |s.all| && !InTable(s, x) { ClientRevivesNoSession(s, Normalize(cfg), x); }
  }

  lemma InvalidateMarks(s: State, id: string, x: nat)
    requires Inv(s)
    ensures MarksRightly(s, InvalidateStep(s, id), Invalidate(id), x)
  {
  }

  lemma ReleaseMarks(s: State, id: string, x: nat)
    requires Inv(s)
    ensures MarksRightly(s, ReleaseStep(s, id), Release(id), x)
  {
  }

  lemma FailKeepsMarks(s: State, l: nat, owned: Option<nat>, x: nat)
    requires l < |s.launches| && s.launches[l].session < |s.all| && x < |s.all|
    ensures FailStep(s, l, owned).all[x].stale == s.all[x].stale
  {
  }

  lemma GoroutinesKeepMarks(s: State, step: Step, x: nat)
    requires Worker(step).Some? && x < |s.all| && Enabled(s, step)
    ensures x < |Next(s, step).all| && Next(s, step).all[x].stale == s.all[x].stale
  {
    match step
    case LaunchFails(l) => FailKeepsMarks(s, l, None, x);
    case StartFails(l) => FailKeepsMarks(s, l, Some(l), x);
    case StartSucceeds(l) => FailKeepsMarks(s, l, Some(l), x);
    case _ =>
  }

  lemma EventsKeepMarks(s: State, step: Step, x: nat)
    requires !IsCall(step) && Worker(step).None? && x < |s.all|
    ensures x < |Next(s, step).all| && Next(s, step).all[x].stale == s.all[x].stale
  {
  }

  lemma OnlyCallsAddSessions(s: State, step: Step)
    requires !step.ClientCall?
    ensures |Next(s, step).all| == |s.all|
  {
    match step
    case Release(id) => assert |ReleaseStep(s, id).all| == |s.all|;
    case _ =>
  }

  lemma StepMarks(s: State, step: Step, x: nat)
    requires Inv(s)
    ensures MarksRightly(s, Next(s, step), step, x)
  {
    match step
    case ClientCall(cfg) => ClientMarks(s, cfg, x);
    case Invalidate(id) => InvalidateMarks(s, id, x);
    case Release(id) => ReleaseMarks(s, id, x);
    case _ => OthersMarkNothing(s, step, x);
  }

  lemma OthersMarkNothing(s: State, step: Step, x: nat)
    requires Inv(s) && !IsCall(step)
    ensures MarksRightly(s, Next(s, step), step, x)
  {
    if InTable(Next(s, step), x) && Enabled(s, step) {
      OnlyCallsAddSessions(s, step);
      if !InTable(s, x) { OutOfTable(s, step, x); }
      if Worker(step).Some? { GoroutinesKeepMarks(s, step, x); } else { EventsKeepMarks(s, step, x); }
    }
  }

  lemma SessionsAreKept(s: State, step: Step)
    requires TableInv(s)
    ensures |s.all| <= |Next(s, step).all|
  {
    if !step.ClientCall? { OnlyCallsAddSessions(s, step); }
  }

  /** Nothing happens to a session before it is there. */
  lemma {:induction false} NotDismissedYet(now: int, steps: seq<Step>, x: nat)
    requires |Exec(Initial(now), steps).all| <= x
    ensures !Dismissed(now, steps, x)
    decreases |steps|
  {
    if steps != [] {
      var before, step := steps[..|steps| - 1], steps[|steps| - 1];
      assert steps == before + [step];
      LastStep(now, before, step);
      InvAlways(now, before);
      SessionsAreKept(Exec(Initial(now), before), step);
      NotDismissedYet(now, before, x);
      DismissedOneMore(now, before, step, x);
    }
  }

  /** A session in the table carries its mark exactly when the run has dismissed it. */
  lemma {:induction false} MarkedExactlyWhenDismissed(now: int, steps: seq<Step>, x: nat)
    requires InTable(Exec(Initial(now), steps), x)
    ensures Exec(Initial(now), steps).all[x].stale <==> Dismissed(now, steps, x)
    decreases |steps|
  {
    if steps != [] {
      var before, step := steps[..|steps| - 1], steps[|steps| - 1];
      var s := Exec(Initial(now), before);
      assert steps == before + [step];
      LastStep(now, before, step);
      InvAlways(now, before);
      StepMarks(s, step, x);
      DismissedOneMore(now, before, step, x);
      if InTable(s, x) {
        MarkedExactlyWhenDismissed(now, before, x);
      } else if x < |s.all| {
        OutOfTable(s, step, x);
      } else {
        NotDismissedYet(now, before, x);
      }
    }
  }
}
