/** When a watch comes, listens, is canceled and goes: exactly which steps do that, in every run. */
module WatchBackendLifecycle {
  import opened Collections
  import opened WatchBackendModel
  import opened WatchBackendProofs

  /** A read that ends the watch: it is canceled, or the read failed, or the next one could not be started. */
  predicate LastDrain(s: State, step: Step, w: nat)
    requires w < |s.all|
  {
    step.Drain? && step.watch == w && Enabled(s, step)
    && (s.all[w].state == Canceling || step.packet != Completed || !step.rearmed)
  }

  predicate Cancels(step: Step, root: string) {
    step.RequestRemove? && step.root == root && step.cancel != CancelFails
  }

  /** How one step treats a registered watch. */
  predicate TreatsRightly(s: State, s': State, step: Step, w: nat)
    requires w < |s.all|
  {
    w < |s'.all| &&
    var watch, watch' := s.all[w], s'.all[w];
    if LastDrain(s, step, w) then !Registered(s', w) && watch'.state == Closed && watch'.stops == 1
    else
      && Registered(s', w)
      && watch'.state == (if Cancels(step, watch.root) then Canceling else watch.state)
      && watch'.root == watch.root && watch'.recursive == watch.recursive
      && (if Enabled(s, step) && step == Complete(w) then watch'.packets == 1
          else if Enabled(s, step) && step.Drain? && step.watch == w then watch'.pending == 1
          else watch'.pending == watch.pending && watch'.packets == watch.packets)
  }

  lemma RemoveTreatsRightly(s: State, root: string, cancel: CancelOutcome, w: nat)
    requires Inv(s) && Registered(s, w)
    ensures TreatsRightly(s, RemoveStep(s, root, cancel), RequestRemove(root, cancel), w)
  {
    if root in s.watches && s.watches[root] != w { assert Registered(s, s.watches[root]); }
  }

  lemma AddTreatsRightly(s: State, root: string, recursive: bool, outcome: AddOutcome, w: nat)
    requires Inv(s) && Registered(s, w)
    ensures TreatsRightly(s, AddStep(s, root, recursive, outcome), Add(root, recursive, outcome), w)
  {
    if root in s.watches { assert Registered(s, s.watches[root]); }
  }

  lemma DrainTreatsRightly(s: State, v: nat, packet: Packet, rearmed: bool, w: nat)
    requires Inv(s) && Registered(s, w) && Enabled(s, Drain(v, packet, rearmed))
    ensures TreatsRightly(s, DrainStep(s, v, packet, rearmed), Drain(v, packet, rearmed), w)
  {
    assert Registered(s, v) && s.all[v].pending == 0 && s.all[v].packets == 1;
    if v != w { assert s.all[v].root != s.all[w].root; }
  }

  lemma StepTreatsRightly(s: State, step: Step, w: nat)
    requires Inv(s) && Registered(s, w)
    ensures TreatsRightly(s, Next(s, step), step, w)
  {
    if Enabled(s, step) {
      match step
      case Add(root, recursive, outcome) => AddTreatsRightly(s, root, recursive, outcome, w);
      case RequestRemove(root, cancel) => RemoveTreatsRightly(s, root, cancel, w);
      case Drain(v, packet, rearmed) => DrainTreatsRightly(s, v, packet, rearmed, w);
      case _ =>
    }
  }

  /**
   A registered watch leaves the table exactly when a packet of it is drained and it is canceled,
   or the packet is not a completed read, or the next read cannot be started. It is then closed.
   */
  lemma WatchesLeaveExactlyWhen(steps: seq<Step>, step: Step, w: nat)
    requires Registered(Exec(Initial, steps), w)
    ensures var s := Exec(Initial, steps); var s' := Next(s, step);
      && (!Registered(s', w) <==>
            step.Drain? && step.watch == w && Enabled(s, step)
            && (s.all[w].state == Canceling || step.packet != Completed || !step.rearmed))
      && (!Registered(s', w) ==> w < |s'.all| && s'.all[w].state == Closed && s'.all[w].stops == 1)
  {
    ExecKeepsInv(Initial, steps);
    StepTreatsRightly(Exec(Initial, steps), step, w);
  }

  /** As long as it stays, a drained packet is followed by the next read, and only a removal cancels it. */
  lemma WatchesKeepListening(steps: seq<Step>, step: Step, w: nat)
    requires Registered(Exec(Initial, steps), w) && Registered(Next(Exec(Initial, steps), step), w)
    ensures var s := Exec(Initial, steps); var s' := Next(s, step);
      && (Enabled(s, step) && step.Drain? && step.watch == w ==> s'.all[w].pending == 1)
      && (s'.all[w].state == Canceling <==>
            s.all[w].state == Canceling
            || (step.RequestRemove? && step.root == s.all[w].root && step.cancel != CancelFails))
  {
    ExecKeepsInv(Initial, steps);
    StepTreatsRightly(Exec(Initial, steps), step, w);
  }

  /** An active watch that is still registered stays active until a removal of its root succeeds. */
  lemma {:induction false} ActiveUntilRemoved(s: State, steps: seq<Step>, w: nat)
    requires Inv(s) && Registered(s, w) && s.all[w].state == Active
    requires forall i :: 0 <= i < |steps| ==> !Cancels(steps[i], s.all[w].root)
    ensures Registered(Exec(s, steps), w) ==>
      Exec(s, steps).all[w].state == Active && Exec(s, steps).all[w].root == s.all[w].root
    decreases |steps|
  {
    if steps != [] {
      var s' := Next(s, steps[0]);
      NextKeepsInv(s, steps[0]);
      StepTreatsRightly(s, steps[0], w);
      if Registered(s', w) {
        ActiveUntilRemoved(s', steps[1..], w);
      } else {
        GoneForever(s', steps[1..], w);
      }
    }
  }

  lemma {:induction false} GoneForever(s: State, steps: seq<Step>, w: nat)
    requires Inv(s) && w < |s.all| && !Registered(s, w)
    ensures !Registered(Exec(s, steps), w)
    decreases |steps|
  {
    if steps != [] {
      NextKeepsInv(s, steps[0]);
      NextKeepsDead(s, steps[0], w);
      GoneForever(Next(s, steps[0]), steps[1..], w);
    }
  }

  /** The same over whole runs. */
  lemma WatchesStayActive(before: seq<Step>, after: seq<Step>, w: nat)
    requires Registered(Exec(Initial, before), w) && Exec(Initial, before).all[w].state == Active
    requires forall i :: 0 <= i < |after| ==> !Cancels(after[i], Exec(Initial, before).all[w].root)
    ensures var s := Exec(Exec(Initial, before), after); Registered(s, w) ==> s.all[w].state == Active
  {
    ExecKeepsInv(Initial, before);
    ActiveUntilRemoved(Exec(Initial, before), after, w);
  }

  /**
   A watch enters the table exactly when a root without one is added and its first read is started;
   then it is active, as recursive as asked for, with that read in the kernel.
   */
  lemma WatchesEnterExactlyWhen(steps: seq<Step>, step: Step, w: nat)
    requires !Registered(Exec(Initial, steps), w)
    ensures var s := Exec(Initial, steps); var s' := Next(s, step);
      && (Registered(s', w) <==>
            && step.Add? && Enabled(s, step) && step.outcome == Armed && step.root !in s.watches && w == |s.all|)
      && (Registered(s', w) ==> s'.all[w] == Watch(step.root, step.recursive, Active, 1, 0, 0, 0))
  {
    var s := Exec(Initial, steps);
    ExecKeepsInv(Initial, steps);
    if w < |s.all| {
      NextKeepsDead(s, step, w);
    } else if step.Add? && Enabled(s, step) {
      NewWatch(s, step.root, step.recursive, step.outcome);
    }
  }

  lemma NewWatch(s: State, root: string, recursive: bool, outcome: AddOutcome)
    requires Inv(s) && s.closing.None? && !s.closed
    ensures var s' := AddStep(s, root, recursive, outcome); var w := |s.all|;
      && (Registered(s', w) <==> outcome == Armed && root !in s.watches)
      && (Registered(s', w) ==> s'.all[w] == Watch(root, recursive, Active, 1, 0, 0, 0))
      && (root in s.watches || outcome == OpenFails ==> s' == s)
      && (root !in s.watches && outcome == ReadFails ==>
            s'.watches == s.watches && s'.all == s.all + [Watch(root, recursive, Active, 0, 0, 1, 0)])
      && |s'.all| <= w + 1
  {
    if root in s.watches { assert Registered(s, s.watches[root]); }
  }

  /** Remove is over for a root, as Close waits for, exactly when the root has no watch. */
  lemma RemovedExactlyWhenGone(steps: seq<Step>, root: string)
    ensures var s := Exec(Initial, steps);
      Enabled(s, CloseRemoved(root)) <==> s.closing.Some? && root !in s.watches
  {
    var s := Exec(Initial, steps);
    ExecKeepsInv(Initial, steps);
    if root in s.watches { assert Registered(s, s.watches[root]); }
  }
}
