/** Safety of the root-watch backend over every run. */
module WatchBackendProofs {
  import opened Collections
  import opened WatchBackendModel

  lemma FinishKeepsInv(s: State, s': State, w: nat)
    requires Inv(s) && Registered(s, w)
    requires s' == s.(all := s.all[w := s.all[w].(pending := 0, packets := 0)])
    ensures Inv(Finish(s', w))
  {
    var f := Finish(s', w);
    forall v | 0 <= v < |f.all| ensures if Registered(f, v) then Live(f.all[v]) else Dead(f.all[v]) {
      if v != w { assert Registered(f, v) <==> Registered(s, v); }
    }
  }

  lemma AddKeepsInv(s: State, root: string, recursive: bool, outcome: AddOutcome)
    requires Inv(s) && s.closing.None? && !s.closed
    ensures Inv(AddStep(s, root, recursive, outcome))
  {
    var s' := AddStep(s, root, recursive, outcome);
    if root in s.watches {
      assert Registered(s, s.watches[root]);
    } else {
      forall v | 0 <= v < |s'.all| ensures if Registered(s', v) then Live(s'.all[v]) else Dead(s'.all[v]) {
        if v < |s.all| { assert Registered(s', v) <==> Registered(s, v); }
      }
    }
  }

  /** Writing to one live watch without ending it. */
  lemma UpdateKeepsInv(s: State, w: nat, watch: Watch)
    requires Inv(s) && Registered(s, w) && Live(watch) && watch.root == s.all[w].root
    ensures Inv(s.(all := s.all[w := watch]))
  {
    var s' := s.(all := s.all[w := watch]);
    assert forall v :: Registered(s', v) <==> Registered(s, v);
  }

  lemma DrainKeepsInv(s: State, w: nat, packet: Packet, rearmed: bool)
    requires Inv(s) && w < |s.all| && s.all[w].packets > 0
    ensures Inv(DrainStep(s, w, packet, rearmed))
  {
    assert Registered(s, w);
    assert s.all[w].pending == 0 && s.all[w].packets == 1;
    var s' := Consume(s, w);
    if s.all[w].state == Active && packet == Completed && rearmed {
      RearmKeepsInv(s, w);
    } else {
      assert s' == s.(all := s.all[w := s.all[w].(pending := 0, packets := 0)]);
      FinishKeepsInv(s, s', w);
    }
  }

  lemma RearmKeepsInv(s: State, w: nat)
    requires Inv(s) && Registered(s, w) && s.all[w].packets == 1
    ensures Inv(Rearm(Consume(s, w), w))
  {
    var watch := s.all[w].(pending := 1, packets := 0);
    UpdateKeepsInv(s, w, watch);
    assert Rearm(Consume(s, w), w).all == s.all[w := watch];
  }

  lemma NextKeepsInv(s: State, step: Step)
    requires Inv(s)
    ensures Inv(Next(s, step))
  {
    if Enabled(s, step) {
      match step
      case Add(root, recursive, outcome) => AddKeepsInv(s, root, recursive, outcome);
      case RequestRemove(root, cancel) =>
        if root in s.watches {
          var w := s.watches[root];
          assert Registered(s, w);
          UpdateKeepsInv(s, w, s.all[w].(state := Canceling));
        }
      case Complete(w) =>
        assert Registered(s, w);
        UpdateKeepsInv(s, w, Completion(s.all[w]));
      case Drain(w, packet, rearmed) =>
        DrainKeepsInv(s, w, packet, rearmed);
      case CloseRemoved(root) =>
        assert root in s.watches ==> Registered(s, s.watches[root]);
        assert forall v :: Registered(Next(s, step), v) <==> Registered(s, v);
      case EndClose =>
        assert s.watches.Keys == {};
        assert forall v :: Registered(Next(s, step), v) <==> Registered(s, v);
      case _ =>
        assert forall v :: Registered(Next(s, step), v) <==> Registered(s, v);
    }
  }

  lemma {:induction false} ExecKeepsInv(s: State, steps: seq<Step>)
    requires Inv(s)
    ensures Inv(Exec(s, steps))
    decreases |steps|
  {
    if steps != [] {
      NextKeepsInv(s, steps[0]);
      ExecKeepsInv(Next(s, steps[0]), steps[1..]);
    }
  }

  /**
   In every run, a watch has at most one outstanding read, in the kernel or queued, and is
   registered exactly while it has one. Its handle is closed exactly once, when it leaves the
   table, and never while a read is outstanding; its channel is closed at most once, exactly
   when the watch is closed.
   */
  lemma OneReadWhileOpen(steps: seq<Step>, w: nat)
    requires w < |Exec(Initial, steps).all|
    ensures var s := Exec(Initial, steps); var watch := s.all[w];
      && watch.Outstanding() == (if Registered(s, w) then 1 else 0)
      && (Registered(s, w) <==> watch.handleCloses == 0)
      && watch.handleCloses <= 1
      && watch.stops == (if watch.state == Closed then 1 else 0)
      && (watch.state == Closed ==> watch.Outstanding() == 0)
  {
    ExecKeepsInv(Initial, steps);
  }

  lemma NextKeepsDead(s: State, step: Step, w: nat)
    requires Inv(s) && w < |s.all| && !Registered(s, w)
    ensures w < |Next(s, step).all| && Next(s, step).all[w] == s.all[w] && !Registered(Next(s, step), w)
  {
    assert Dead(s.all[w]);
    if Enabled(s, step) && step.RequestRemove? && step.root in s.watches {
      assert s.watches[step.root] != w;
    }
  }

  lemma {:induction false} DeadStaysDead(s: State, steps: seq<Step>, w: nat)
    requires Inv(s) && w < |s.all| && !Registered(s, w)
    ensures w < |Exec(s, steps).all| && Exec(s, steps).all[w] == s.all[w]
    decreases |steps|
  {
    if steps != [] {
      NextKeepsInv(s, steps[0]);
      NextKeepsDead(s, steps[0], w);
      DeadStaysDead(Next(s, steps[0]), steps[1..], w);
    }
  }

  /**
   Remove returns without error for a watch when its channel is closed, or right away when its
   root has no watch. From then on no packet ever refers to that watch: its memory is never
   touched again, even if the root has been added anew meanwhile.
   */
  lemma NoPacketAfterRemove(before: seq<Step>, after: seq<Step>, w: nat)
    requires w < |Exec(Initial, before).all|
    requires var s := Exec(Initial, before); s.all[w].stops > 0 || s.all[w].root !in s.watches
    ensures var s := Exec(Exec(Initial, before), after);
      w < |s.all| && s.all[w] == Exec(Initial, before).all[w] && s.all[w].Outstanding() == 0
  {
    var s := Exec(Initial, before);
    ExecKeepsInv(Initial, before);
    DeadStaysDead(s, after, w);
  }

  /** The steps that bring a canceled watch forward: its read completes, and its packet is taken. */
  predicate Handles(step: Step, w: nat) {
    step == Complete(w) || (step.Drain? && step.watch == w)
  }

  /** How many steps of a run do that. */
  function Handled(s: State, steps: seq<Step>, w: nat): nat
    decreases |steps|
  {
    if steps == [] then 0
    else
      (if Enabled(s, steps[0]) && Handles(steps[0], w) then 1 else 0) + Handled(Next(s, steps[0]), steps[1..], w)
  }

  /** How many such steps a watch still needs before it is closed. */
  function Distance(watch: Watch): nat {
    2 * watch.pending + watch.packets
  }

  lemma HandlingStep(s: State, step: Step, w: nat)
    requires Inv(s) && w < |s.all| && s.all[w].state == Canceling
    requires Enabled(s, step) && Handles(step, w)
    ensures var s' := Next(s, step);
      && w < |s'.all| && s'.all[w].state != Active && Distance(s'.all[w]) + 1 == Distance(s.all[w])
      && (s'.all[w].state == Closed <==> Distance(s'.all[w]) == 0)
  {
    assert Registered(s, w);
  }

  lemma OtherStep(s: State, step: Step, w: nat)
    requires Inv(s) && w < |s.all| && s.all[w].state == Canceling
    requires Enabled(s, step) && !Handles(step, w)
    ensures w < |Next(s, step).all| && Next(s, step).all[w] == s.all[w]
  {
    assert Registered(s, w);
    if step.Drain? {
      assert Registered(s, step.watch) && s.all[step.watch].root != s.all[w].root;
    }
  }

  lemma {:induction false} CanceledRun(s: State, steps: seq<Step>, w: nat)
    requires Inv(s) && w < |s.all| && s.all[w].state == Canceling
    ensures var s' := Exec(s, steps);
      && w < |s'.all| && s'.all[w].state != Active && s'.all[w].root == s.all[w].root
      && Handled(s, steps, w) + Distance(s'.all[w]) == Distance(s.all[w])
      && (s'.all[w].state == Closed <==> Distance(s'.all[w]) == 0)
    decreases |steps|
  {
    assert Registered(s, w) && Live(s.all[w]);
    if steps != [] && !Enabled(s, steps[0]) {
      CanceledRun(s, steps[1..], w);
    } else if steps != [] {
      var s' := Next(s, steps[0]);
      NextKeepsInv(s, steps[0]);
      if Handles(steps[0], w) { HandlingStep(s, steps[0], w); } else { OtherStep(s, steps[0], w); }
      if s'.all[w].state == Canceling {
        CanceledRun(s', steps[1..], w);
      } else {
        assert !Registered(s', w);
        DeadStaysDead(s', steps[1..], w);
        DeadIsNotHandled(s', steps[1..], w);
      }
    }
  }

  lemma {:induction false} DeadIsNotHandled(s: State, steps: seq<Step>, w: nat)
    requires Inv(s) && w < |s.all| && !Registered(s, w)
    ensures Handled(s, steps, w) == 0
    decreases |steps|
  {
    if steps != [] {
      NextKeepsInv(s, steps[0]);
      NextKeepsDead(s, steps[0], w);
      DeadIsNotHandled(Next(s, steps[0]), steps[1..], w);
    }
  }

  /** A canceled watch never reads again: it waits for its packet and is then closed, for any outcome. */
  lemma CanceledOnlyCloses(before: seq<Step>, after: seq<Step>, w: nat)
    requires w < |Exec(Initial, before).all| && Exec(Initial, before).all[w].state == Canceling
    ensures var s := Exec(Exec(Initial, before), after);
      w < |s.all| && s.all[w].state != Active && (s.all[w].state == Closed <==> s.all[w].Outstanding() == 0)
  {
    ExecKeepsInv(Initial, before);
    CanceledRun(Exec(Initial, before), after, w);
  }

  /**
   Why the wait in Remove ends: at most two steps of the kernel and the reader stand between a canceled
   watch and its closed channel, whatever happens between them and however they end. Until they
   are taken one of them is enabled.
   */
  lemma CanceledIsClosed(before: seq<Step>, after: seq<Step>, w: nat)
    requires w < |Exec(Initial, before).all| && Exec(Initial, before).all[w].state == Canceling
    ensures var start := Exec(Initial, before); var s := Exec(start, after);
      && 1 <= Distance(start.all[w]) <= 2 && Handled(start, after, w) <= Distance(start.all[w])
      && w < |s.all| && (s.all[w].stops == 1 <==> Handled(start, after, w) == Distance(start.all[w]))
      && (s.all[w].stops == 0 ==>
            Enabled(s, Complete(w)) || forall packet, rearmed :: Enabled(s, Drain(w, packet, rearmed)))
  {
    var start := Exec(Initial, before);
    ExecKeepsInv(Initial, before);
    assert Registered(start, w);
    CanceledRun(start, after, w);
    ExecKeepsInv(start, after);
    var s := Exec(start, after);
    assert s.all[w].state == Canceling ==> Registered(s, w);
  }

  /** After Close has succeeded, no watch is registered and no packet is outstanding, ever again. */
  lemma CloseDrainsEverything(before: seq<Step>, after: seq<Step>)
    requires Exec(Initial, before).closed
    ensures var s := Exec(Exec(Initial, before), after);
      && s.closed && s.watches == map[]
      && forall w :: 0 <= w < |s.all| ==> s.all[w].Outstanding() == 0 && s.all[w].handleCloses == 1
  {
    var s := Exec(Initial, before);
    ExecKeepsInv(Initial, before);
    ClosedStays(s, after);
    ExecKeepsInv(s, after);
    var s' := Exec(s, after);
    forall w | 0 <= w < |s'.all| ensures s'.all[w].Outstanding() == 0 && s'.all[w].handleCloses == 1 {
      assert !Registered(s', w);
    }
  }

  lemma {:induction false} ClosedStays(s: State, steps: seq<Step>)
    requires s.closed
    ensures Exec(s, steps).closed
    decreases |steps|
  {
    if steps != [] {
      ClosedStays(Next(s, steps[0]), steps[1..]);
    }
  }

  /** The reader goroutine only exits when every packet has been drained. */
  lemma ReaderNeverLeavesPackets(steps: seq<Step>)
    ensures var s := Exec(Initial, steps);
      !s.reading ==> forall w :: 0 <= w < |s.all| ==> s.all[w].Outstanding() == 0
  {
    ExecKeepsInv(Initial, steps);
    var s := Exec(Initial, steps);
    if !s.reading {
      forall w | 0 <= w < |s.all| ensures s.all[w].Outstanding() == 0 {
        assert !Registered(s, w);
      }
    }
  }
}
