/** How the session manager comes to rest after Close. */
module ManagerSettling {
  import opened Collections
  import opened ManagerModel
  import opened ManagerInvariant
  import opened ManagerProofs
  import opened ManagerTheorems

  /** What is left to do after Close: a startup takes at most two turns and one cleanup. */
  function Left(launch: Launch): nat {
    if launch.phase == Starting then 3 else if launch.InFlight() then 2 else 0
  }

  function Remaining(s: State): nat {
    Total(Left, s.launches) + |s.cleanups|
  }

  /** Work that Close has left to goroutines: startups coming to their end, and cleanups. */
  predicate IsClosing(s: State, step: Step) {
    Enabled(s, step) &&
    (step.Spawn? || step.LaunchFails? || step.Publish? || step.StartSucceeds? || step.StartFails? || step.RunCleanup?)
  }

  /** How much of that work a run does. */
  function Closings(s: State, steps: seq<Step>): nat
    decreases |steps|
  {
    if steps == [] then 0 else (if IsClosing(s, steps[0]) then 1 else 0) + Closings(Next(s, steps[0]), steps[1..])
  }

  /** One launch moves on, and leaves at most one cleanup behind. */
  lemma OneLaunchLess(s: State, s': State, l: nat, c: Option<Cleanup>)
    requires l < |s.launches| && |s'.launches| == |s.launches| && s.launches[l].InFlight()
    requires forall k :: 0 <= k < |s.launches| && k != l ==> s'.launches[k].phase == s.launches[k].phase
    requires s'.cleanups == if c.Some? then s.cleanups + {c.value} else s.cleanups
    requires s'.launches[l].phase == Done
      || (s.launches[l].phase == Starting && s'.launches[l].phase == Spawned && c.None?)
    ensures Remaining(s') < Remaining(s)
  {
    var moved := s.launches[l := s'.launches[l]];
    TotalUpdate(Left, s.launches, l, s'.launches[l]);
    SameWeights(moved, s'.launches);
    if c.Some? && c.value !in s.cleanups { assert |s'.cleanups| == |s.cleanups| + 1; }
    if c.Some? && c.value in s.cleanups { assert s'.cleanups == s.cleanups; }
  }

  lemma SameWeights(first: seq<Launch>, second: seq<Launch>)
    requires |first| == |second| && forall k :: 0 <= k < |first| ==> first[k].phase == second[k].phase
    ensures Total(Left, first) == Total(Left, second)
  {
    TotalMonotone(Left, first, second);
    TotalMonotone(Left, second, first);
  }

  lemma FailureSpends(s: State, l: nat, owned: Option<nat>)
    requires s.closed && l < |s.launches| && s.launches[l].session < |s.all| && s.launches[l].InFlight()
    ensures Remaining(FailStep(s, l, owned)) < Remaining(s)
  {
    OneLaunchLess(s, FailStep(s, l, owned), l, Some(Cleanup(owned, owned, s.all[s.launches[l].session].cancel)));
  }

  /** After Close, each turn of that work leaves less of it. */
  lemma ClosingSpends(s: State, step: Step)
    requires s.closed && IsClosing(s, step)
    ensures Remaining(Next(s, step)) < Remaining(s)
  {
    match step
    case Spawn(l) => OneLaunchLess(s, Next(s, step), l, None);
    case LaunchFails(l) => FailureSpends(s, l, None);
    case Publish(l) => OneLaunchLess(s, Next(s, step), l, Some(Cleanup(Some(l), None, None)));
    case StartSucceeds(l) => FailureSpends(s, l, Some(l));
    case StartFails(l) => FailureSpends(s, l, Some(l));
    case RunCleanup(c) =>
      SameWeights(s.launches, Next(s, step).launches);
      assert |s.cleanups - {c}| == |s.cleanups| - 1;
  }

  /** And nothing else adds to it. */
  lemma OthersAddNothing(s: State, step: Step)
    requires Inv(s) && s.closed && !IsClosing(s, step)
    ensures Remaining(Next(s, step)) <= Remaining(s)
  {
    var s' := Next(s, step);
    assert s'.cleanups == s.cleanups && |s'.launches| == |s.launches|;
    if step.WatchReturns? && Enabled(s, step) {
      TotalMonotone(Left, s'.launches, s.launches);
    } else {
      SameWeights(s.launches, s'.launches);
    }
  }

  lemma {:induction false} ClosingsAreBounded(s: State, steps: seq<Step>)
    requires Inv(s) && s.closed
    ensures Exec(s, steps).closed
    ensures Closings(s, steps) + Remaining(Exec(s, steps)) <= Remaining(s)
    decreases |steps|
  {
    if steps != [] {
      NextKeepsInv(s, steps[0]);
      if IsClosing(s, steps[0]) { ClosingSpends(s, steps[0]); } else { OthersAddNothing(s, steps[0]); }
      ClosingsAreBounded(Next(s, steps[0]), steps[1..]);
    }
  }

  /**
   Once closed, the manager settles after at most the remaining turns of its goroutines, whatever
   else happens between them. Until then there is one to take.
   */
  lemma CloseSettles(now: int, steps: seq<Step>, later: seq<Step>)
    requires Exec(Initial(now), steps).closed
    ensures var s := Exec(Initial(now), steps); var s' := Exec(s, later);
      && Closings(s, later) <= Remaining(s)
      && (Closings(s, later) == Remaining(s) ==> Settled(s'))
      && (!Settled(s') ==> exists step :: IsClosing(s', step))
  {
    var s := Exec(Initial(now), steps);
    InvAlways(now, steps);
    ClosingsAreBounded(s, later);
    ExecKeepsInv(s, later);
    var s' := Exec(s, later);
    SettledWhenNothingRemains(s');
    if !Settled(s') { var step := ClosingIsPossible(s'); }
  }

  lemma SettledWhenNothingRemains(s: State)
    requires s.closed
    ensures Remaining(s) == 0 <==> Settled(s)
  {
    TotalZero(Left, s.launches);
    assert Settled(s) ==> forall l :: 0 <= l < |s.launches| ==> Left(s.launches[l]) == 0;
    assert Remaining(s) == 0 ==> forall l :: 0 <= l < |s.launches| ==> Left(s.launches[l]) == 0;
  }

  lemma ClosingIsPossible(s: State) returns (step: Step)
    requires Inv(s) && s.closed && !Settled(s)
    ensures IsClosing(s, step)
  {
    if s.cleanups != {} {
      var c :| c in s.cleanups;
      step := RunCleanup(c);
    } else {
      var l :| 0 <= l < |s.launches| && s.launches[l].InFlight();
      step :=
        if s.launches[l].phase == Starting then Spawn(l)
        else if s.launches[l].phase == Spawned then Publish(l)
        else StartFails(l);
    }
  }
}
