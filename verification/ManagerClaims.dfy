/** Reference counts against what callers hold, restarts, idle sessions and reported phases. */
module ManagerClaims {
  import opened Collections
  import opened ManagerModel
  import opened ManagerInvariant
  import opened ManagerProofs
  import opened ManagerTheorems

  function Refs(s: State, id: string): nat {
    if id in s.sessions && s.sessions[id] < |s.all| then s.all[s.sessions[id]].refs else 0
  }

  /** In every run, a session never counts more references than its project's callers still hold. */
  lemma RefsNeverExceedClaims(now: int, steps: seq<Step>, id: string)
    ensures Refs(Exec(Initial(now), steps), id) <= Claims(Exec(Initial(now), steps), id)
  {
    var s := Exec(Initial(now), steps);
    InvAlways(now, steps);
    if id in s.sessions {
      assert InTable(s, s.sessions[id]);
      assert SessionInv(s, s.sessions[id]);
    }
  }

  // ----- exact counting, and when it fails -----

  ghost predicate Exact(s: State) {
    forall id :: Claims(s, id) == Refs(s, id)
  }

  /** A startup succeeds on a session whose crashed client is still held by somebody. */
  predicate Forgets(s: State, step: Step) {
    step.StartSucceeds? && Enabled(s, step) && InTable(s, s.launches[step.launch].session)
    && s.all[s.launches[step.launch].session].refs != 0
  }

  lemma ExactClaim(s: State, x: nat)
    requires TableInv(s) && Exact(s) && InTable(s, x)
    ensures Exact(Claim(s, x))
  {
    var s' := Claim(s, x);
    forall id ensures Claims(s', id) == Refs(s', id) {
      assert Claims(s, id) == Refs(s, id);
    }
  }

  /** The table, the counts and the claims are as before. */
  lemma ExactFrame(s: State, s': State)
    requires TableInv(s) && Exact(s) && s'.claims == s.claims
    requires forall id :: Refs(s', id) == Refs(s, id)
    ensures Exact(s')
  {
    forall id ensures Claims(s', id) == Refs(s', id) {
      assert Claims(s, id) == Refs(s, id);
    }
  }

  lemma ExactClient(s: State, cfg: Config)
    requires Inv(s) && Exact(s)
    ensures Exact(ClientStep(s, cfg))
  {
    if !s.closed && cfg.id in s.sessions && ClientStep(s, cfg).claims != s.claims {
      ExactClaim(s, s.sessions[cfg.id]);
    } else {
      ClientCountsNothing(s, cfg);
      ExactFrame(s, ClientStep(s, cfg));
    }
  }

  lemma ClientCountsNothing(s: State, cfg: Config)
    requires Inv(s) && Exact(s) && (s.closed || cfg.id !in s.sessions || ClientStep(s, cfg).claims == s.claims)
    ensures ClientStep(s, cfg).claims == s.claims
    ensures forall id :: Refs(ClientStep(s, cfg), id) == Refs(s, id)
  {
  }

  lemma ExactRelease(s: State, id: string)
    requires Inv(s) && Exact(s)
    ensures Exact(ReleaseStep(s, id))
  {
    forall y ensures Claims(ReleaseStep(s, id), y) == Refs(ReleaseStep(s, id), y) {
      assert Claims(s, y) == Refs(s, y);
      if y == id { ExactOwnRelease(s, id); } else { ExactOtherRelease(s, id, y); }
    }
  }

  lemma ExactOwnRelease(s: State, id: string)
    requires Inv(s) && Claims(s, id) == Refs(s, id)
    ensures Claims(ReleaseStep(s, id), id) == Refs(ReleaseStep(s, id), id)
  {
    if id in s.sessions { assert InTable(s, s.sessions[id]); }
  }

  lemma ExactOtherRelease(s: State, id: string, y: string)
    requires Inv(s) && Claims(s, y) == Refs(s, y) && y != id
    ensures Claims(ReleaseStep(s, id), y) == Refs(ReleaseStep(s, id), y)
  {
    if y in s.sessions { assert InTable(s, s.sessions[y]); }
    if id in s.sessions { assert InTable(s, s.sessions[id]); }
  }

  lemma ExactInvalidate(s: State, id: string)
    requires Inv(s) && Exact(s)
    ensures Exact(InvalidateStep(s, id))
  {
    ExactFrame(s, InvalidateStep(s, id));
  }

  lemma ExactStop(s: State, t: nat)
    requires Inv(s) && Exact(s) && Enabled(s, IdleStop(t))
    ensures Exact(IdleStep(s, t))
  {
    ExactFrame(s, IdleStep(s, t));
  }

  lemma SucceedCounts(s: State, l: nat)
    requires Inv(s) && Exact(s) && Enabled(s, StartSucceeds(l))
    ensures Exact(SucceedStep(s, l)) <==> !Forgets(s, StartSucceeds(l))
  {
    var s' := SucceedStep(s, l);
    var x := s.launches[l].session;
    if Forgets(s, StartSucceeds(l)) {
      var id := s.all[x].config.id;
      assert Claims(s, id) == Refs(s, id);
      assert Claims(s', id) != Refs(s', id);
    } else {
      ExactFrame(s, s');
    }
  }

  lemma ExactFailure(s: State, l: nat, owned: Option<nat>)
    requires Inv(s) && Exact(s) && CanFail(s, l, owned)
    ensures Exact(FailStep(s, l, owned))
  {
    ExactFrame(s, FailStep(s, l, owned));
  }

  lemma ExactOther(s: State, step: Step)
    requires Inv(s) && Exact(s) && !Next(s, step).closed
    requires !IsCall(step) && !step.StartupResult? && !step.IdleStop? && !step.StartSucceeds?
    requires !step.LaunchFails? && !step.StartFails?
    ensures Exact(Next(s, step))
  {
    ExactFrame(s, Next(s, step));
  }

  /**
   Counting stays exact in every step but one kind: the success of a restart on a session
   that crashed while callers held its client, which resets the count.
   */
  lemma ExactUnlessForgotten(s: State, step: Step)
    requires Inv(s) && Exact(s) && !Next(s, step).closed
    ensures Exact(Next(s, step)) <==> !Forgets(s, step)
  {
    match step
    case ClientCall(cfg) => ExactClient(s, Normalize(cfg));
    case StartupResult(l) =>
      if Next(s, step) != s { ExactClaim(s, s.launches[l].session); }
    case Release(id) => ExactRelease(s, id);
    case Invalidate(id) => ExactInvalidate(s, id);
    case IdleStop(t) => if Enabled(s, step) { ExactStop(s, t); }
    case StartSucceeds(l) =>
      if Enabled(s, step) { SucceedCounts(s, l); }
    case LaunchFails(l) => if Enabled(s, step) { ExactFailure(s, l, None); }
    case StartFails(l) => if Enabled(s, step) { ExactFailure(s, l, Some(l)); }
    case _ => ExactOther(s, step);
  }

  /** A process dies under a client that the session still offers. */
  predicate Crash(s: State, step: Step) {
    step.WatchReturns? && Enabled(s, step) && InTable(s, s.launches[step.launch].session)
  }

  predicate CrashFree(s: State, steps: seq<Step>)
    decreases |steps|
  {
    steps == [] || (!Crash(s, steps[0]) && CrashFree(Next(s, steps[0]), steps[1..]))
  }

  /** Without crashes, references are only held to a client that is there. */
  ghost predicate HeldMeansClient(s: State) {
    forall x :: InTable(s, x) && s.all[x].refs > 0 ==> s.all[x].client.Some?
  }

  lemma CallersHoldClients(s: State, step: Step)
    requires Inv(s) && HeldMeansClient(s) && (IsCall(step) || step.StartupResult?)
    ensures HeldMeansClient(Next(s, step))
  {
    match step
    case ClientCall(cfg) => ClientHoldsClients(s, Normalize(cfg));
    case Release(id) => ReleaseHoldsClients(s, id);
    case Invalidate(id) => InvalidateHoldsClients(s, id);
    case StartupResult(l) => if Enabled(s, step) { ResultHoldsClients(s, l); }
  }

  lemma RefusalHoldsClients(s: State, cfg: Config)
    requires Inv(s) && HeldMeansClient(s) && !s.closed && cfg.id in s.sessions
    requires s.all[s.sessions[cfg.id]].stale || s.all[s.sessions[cfg.id]].config != cfg
    ensures HeldMeansClient(ClientStep(s, cfg))
  {
  }

  lemma UseHoldsClients(s: State, cfg: Config)
    requires Inv(s) && HeldMeansClient(s) && !s.closed && cfg.id in s.sessions
    requires !s.all[s.sessions[cfg.id]].stale && s.all[s.sessions[cfg.id]].config == cfg
    ensures HeldMeansClient(ClientStep(s, cfg))
  {
  }

  lemma ClientHoldsClients(s: State, cfg: Config)
    requires Inv(s) && HeldMeansClient(s)
    ensures HeldMeansClient(ClientStep(s, cfg))
  {
    if !s.closed && cfg.id in s.sessions {
      if s.all[s.sessions[cfg.id]].stale || s.all[s.sessions[cfg.id]].config != cfg {
        RefusalHoldsClients(s, cfg);
      } else {
        UseHoldsClients(s, cfg);
      }
    }
  }

  lemma ReleaseHoldsClients(s: State, id: string)
    requires Inv(s) && HeldMeansClient(s)
    ensures HeldMeansClient(ReleaseStep(s, id))
  {
  }

  lemma InvalidateHoldsClients(s: State, id: string)
    requires Inv(s) && HeldMeansClient(s)
    ensures HeldMeansClient(InvalidateStep(s, id))
  {
  }

  lemma ResultHoldsClients(s: State, l: nat)
    requires Inv(s) && HeldMeansClient(s) && Enabled(s, StartupResult(l))
    ensures HeldMeansClient(ResultStep(s, l))
  {
  }

  lemma FailKeepsHeld(s: State, l: nat, owned: Option<nat>)
    requires Inv(s) && HeldMeansClient(s) && CanFail(s, l, owned)
    ensures HeldMeansClient(FailStep(s, l, owned))
  {
    var y := s.launches[l].session;
    assert SessionInv(s, y) && Own(s, y, l);
    assert LaunchInv(s, y, l);
  }

  lemma SuccessKeepsHeld(s: State, l: nat)
    requires Inv(s) && HeldMeansClient(s) && Enabled(s, StartSucceeds(l))
    ensures HeldMeansClient(SucceedStep(s, l))
  {
    FailKeepsHeld(s, l, Some(l));
  }

  lemma GoroutinesKeepHeld(s: State, step: Step)
    requires Inv(s) && HeldMeansClient(s) && !Crash(s, step) && Worker(step).Some? && Enabled(s, step)
    ensures HeldMeansClient(Next(s, step))
  {
    match step
    case LaunchFails(l) => FailKeepsHeld(s, l, None);
    case StartFails(l) => FailKeepsHeld(s, l, Some(l));
    case StartSucceeds(l) => SuccessKeepsHeld(s, l);
    case _ =>
  }

  lemma EventsKeepHeld(s: State, step: Step)
    requires Inv(s) && HeldMeansClient(s) && Worker(step).None? && !IsCall(step) && !step.StartupResult?
    ensures HeldMeansClient(Next(s, step))
  {
  }

  lemma CrashFreeStep(s: State, step: Step)
    requires Inv(s) && HeldMeansClient(s) && !Crash(s, step)
    ensures HeldMeansClient(Next(s, step))
  {
    if IsCall(step) || step.StartupResult? {
      CallersHoldClients(s, step);
    } else if Worker(step).None? {
      EventsKeepHeld(s, step);
    } else if Enabled(s, step) {
      GoroutinesKeepHeld(s, step);
    }
  }

  predicate NeverForgets(s: State, steps: seq<Step>)
    decreases |steps|
  {
    steps == [] || (!Forgets(s, steps[0]) && NeverForgets(Next(s, steps[0]), steps[1..]))
  }

  /** Until Close, counts equal claims before every step and at the end. */
  ghost predicate ExactThroughout(s: State, steps: seq<Step>)
    decreases |steps|
  {
    (s.closed || Exact(s)) && (steps == [] || ExactThroughout(Next(s, steps[0]), steps[1..]))
  }

  lemma {:induction false} ExactRun(s: State, steps: seq<Step>)
    requires Inv(s) && (s.closed || Exact(s))
    ensures ExactThroughout(s, steps) <==> NeverForgets(s, steps)
    decreases |steps|
  {
    if steps != [] {
      var s' := Next(s, steps[0]);
      NextKeepsInv(s, steps[0]);
      ClosedStep(s, steps[0]);
      if s'.closed {
        ClosedForgetsNothing(s, steps[0]);
      } else {
        ExactUnlessForgotten(s, steps[0]);
      }
      if s'.closed || Exact(s') { ExactRun(s', steps[1..]); }
    }
  }

  /** A step into or after Close resets no count. */
  lemma ClosedForgetsNothing(s: State, step: Step)
    requires Inv(s) && Next(s, step).closed
    ensures !Forgets(s, step)
  {
  }

  lemma {:induction false} ExactAtTheEnd(s: State, steps: seq<Step>)
    requires ExactThroughout(s, steps)
    ensures Exec(s, steps).closed || Exact(Exec(s, steps))
    decreases |steps|
  {
    if steps != [] { ExactAtTheEnd(Next(s, steps[0]), steps[1..]); }
  }

  /** Only a crash leaves something to forget. */
  lemma {:induction false} CrashFreeRunsNeverForget(s: State, steps: seq<Step>)
    requires Inv(s) && HeldMeansClient(s) && CrashFree(s, steps)
    ensures NeverForgets(s, steps)
    decreases |steps|
  {
    if steps != [] {
      NextKeepsInv(s, steps[0]);
      CrashFreeStep(s, steps[0]);
      if steps[0].StartSucceeds? && Enabled(s, steps[0]) { NothingToForget(s, steps[0].launch); }
      CrashFreeRunsNeverForget(Next(s, steps[0]), steps[1..]);
    }
  }

  lemma ClosedStep(s: State, step: Step)
    ensures s.closed ==> Next(s, step).closed
  {
  }

  lemma NothingToForget(s: State, l: nat)
    requires Inv(s) && HeldMeansClient(s) && Enabled(s, StartSucceeds(l))
    ensures !Forgets(s, StartSucceeds(l))
  {
    var x := s.launches[l].session;
    assert SessionInv(s, x) && Own(s, x, l);
    assert LaunchInv(s, x, l);
  }

  /** A run keeps every count equal to the claims, until Close, exactly when no step of it forgets references. */
  lemma CountsAreExact(now: int, steps: seq<Step>)
    ensures ExactThroughout(Initial(now), steps) <==> NeverForgets(Initial(now), steps)
  {
    InvAlways(now, []);
    assert Inv(Initial(now));
    ExactRun(Initial(now), steps);
  }

  /** In particular, runs without a crash do. */
  lemma CrashFreeRunsAreExact(now: int, steps: seq<Step>, id: string)
    requires CrashFree(Initial(now), steps)
    ensures var s := Exec(Initial(now), steps);
      s.closed || Claims(s, id) == Refs(s, id)
  {
    InvAlways(now, []);
    assert Inv(Initial(now));
    CrashFreeRunsNeverForget(Initial(now), steps);
    CountsAreExact(now, steps);
    ExactAtTheEnd(Initial(now), steps);
  }

  // ----- what a held client is safe from -----

  /** The session is in the table and offers this open client. */
  predicate Offers(s: State, x: nat, l: nat) {
    InTable(s, x) && s.all[x].client == Some(l) && l < |s.launches| && s.launches[l].client == Open
  }

  /** Taking another session out of the table does not reach this one's client. */
  lemma RetireKeepsOthers(s: State, y: nat, x: nat, l: nat)
    requires Inv(s) && Offers(s, x, l) && InTable(s, y) && y != x
    ensures Dispose(s.launches, Held(s, y))[l].client == Open
    ensures s.all[y].config.id != s.all[x].config.id
  {
    assert SessionInv(s, x) && SessionInv(s, y);
    assert Refers(Held(s, y), l) ==> Own(s, y, l);
  }

  lemma ClientKeepsHeld(s: State, cfg: Config, x: nat, l: nat)
    requires Inv(s) && Exact(s) && Offers(s, x, l) && Claims(ClientStep(s, cfg), s.all[x].config.id) > 0
    ensures Offers(ClientStep(s, cfg), x, l)
  {
    assert Claims(s, s.all[x].config.id) == Refs(s, s.all[x].config.id);
    if cfg.id in s.sessions && s.sessions[cfg.id] != x {
      assert InTable(s, s.sessions[cfg.id]);
      RetireKeepsOthers(s, s.sessions[cfg.id], x, l);
    }
  }

  lemma ReleaseKeepsHeld(s: State, id: string, x: nat, l: nat)
    requires Inv(s) && Exact(s) && Offers(s, x, l) && Claims(ReleaseStep(s, id), s.all[x].config.id) > 0
    ensures Offers(ReleaseStep(s, id), x, l)
  {
    assert Claims(s, s.all[x].config.id) == Refs(s, s.all[x].config.id);
    if id in s.sessions && s.sessions[id] != x {
      assert InTable(s, s.sessions[id]);
      RetireKeepsOthers(s, s.sessions[id], x, l);
    }
  }

  lemma InvalidateKeepsHeld(s: State, id: string, x: nat, l: nat)
    requires Inv(s) && Exact(s) && Offers(s, x, l) && Claims(s, s.all[x].config.id) > 0
    ensures Offers(InvalidateStep(s, id), x, l)
  {
    assert Claims(s, s.all[x].config.id) == Refs(s, s.all[x].config.id);
    if id in s.sessions && s.sessions[id] != x {
      assert InTable(s, s.sessions[id]);
      RetireKeepsOthers(s, s.sessions[id], x, l);
    }
  }

  lemma CallersKeepHeld(s: State, step: Step, x: nat, l: nat)
    requires Inv(s) && Exact(s) && Offers(s, x, l) && IsCall(step)
    requires Claims(Next(s, step), s.all[x].config.id) > 0
    ensures Offers(Next(s, step), x, l)
  {
    match step
    case ClientCall(cfg) => ClientKeepsHeld(s, Normalize(cfg), x, l);
    case Release(id) => ReleaseKeepsHeld(s, id, x, l);
    case Invalidate(id) => InvalidateKeepsHeld(s, id, x, l);
  }

  lemma ResultKeepsHeld(s: State, step: Step, x: nat, l: nat)
    requires Inv(s) && Offers(s, x, l) && step.StartupResult?
    ensures Offers(Next(s, step), x, l)
  {
    assert Next(s, step).sessions == s.sessions && Next(s, step).launches == s.launches;
  }

  lemma StopsKeepHeld(s: State, step: Step, x: nat, l: nat)
    requires Inv(s) && Exact(s) && Offers(s, x, l) && (step.IdleStop? || step.RunCleanup?)
    requires Claims(s, s.all[x].config.id) > 0
    ensures Offers(Next(s, step), x, l)
  {
    assert SessionInv(s, x) && Own(s, x, l);
    assert Claims(s, s.all[x].config.id) == Refs(s, s.all[x].config.id);
    if step.IdleStop? && Enabled(s, step) { assert SessionInv(s, s.timers[step.timer].session); }
    var phase := s.launches[l].phase;
    if step.RunCleanup? && Enabled(s, step) { assert Refers(step.cleanup, l) ==> phase == Done; }
  }

  lemma AbandonKeepsOffer(s: State, k: nat, owned: Option<nat>, x: nat, l: nat)
    requires Inv(s) && Offers(s, x, l) && CanFail(s, k, owned) && !InTable(s, s.launches[k].session)
    ensures Offers(AbandonedStartup(s, k, owned), x, l)
  {
  }

  lemma FailureKeepsOffer(s: State, k: nat, owned: Option<nat>, x: nat, l: nat)
    requires Inv(s) && Offers(s, x, l) && CanFail(s, k, owned) && InTable(s, s.launches[k].session)
    ensures Offers(RecordedFailure(s, k, owned), x, l)
  {
    var y := s.launches[k].session;
    assert SessionInv(s, y) && Own(s, y, k);
    assert LaunchInv(s, y, k);
  }

  lemma FailKeepsOffer(s: State, k: nat, owned: Option<nat>, x: nat, l: nat)
    requires Inv(s) && Offers(s, x, l) && CanFail(s, k, owned)
    ensures Offers(FailStep(s, k, owned), x, l)
  {
    if InTable(s, s.launches[k].session) {
      FailureKeepsOffer(s, k, owned, x, l);
    } else {
      AbandonKeepsOffer(s, k, owned, x, l);
    }
  }

  lemma SuccessKeepsOffer(s: State, k: nat, x: nat, l: nat)
    requires Inv(s) && Offers(s, x, l) && Enabled(s, StartSucceeds(k))
    ensures Offers(SucceedStep(s, k), x, l)
  {
    if s.closed || !InTable(s, s.launches[k].session) {
      FailKeepsOffer(s, k, Some(k), x, l);
    } else {
      OfferingKeepsOffer(s, k, x, l);
    }
  }

  lemma OfferingKeepsOffer(s: State, k: nat, x: nat, l: nat)
    requires Inv(s) && Offers(s, x, l) && Enabled(s, StartSucceeds(k)) && InTable(s, s.launches[k].session)
    ensures Offers(OfferedClient(s, k), x, l)
  {
    var y := s.launches[k].session;
    assert SessionInv(s, x) && SessionInv(s, y) && Own(s, y, k);
    assert LaunchInv(s, y, k);
  }

  lemma PublishKeepsOffer(s: State, k: nat, x: nat, l: nat)
    requires Inv(s) && Offers(s, x, l) && Enabled(s, Publish(k))
    ensures Offers(PublishStep(s, k), x, l)
  {
    var y := s.launches[k].session;
    assert SessionInv(s, x) && SessionInv(s, y) && Own(s, y, k);
    assert LaunchInv(s, y, k);
  }

  lemma SpawnKeepsOffer(s: State, k: nat, x: nat, l: nat)
    requires Inv(s) && Offers(s, x, l) && Enabled(s, Spawn(k))
    ensures Offers(Next(s, Spawn(k)), x, l)
  {
  }

  lemma OtherCrashesKeepOffer(s: State, k: nat, x: nat, l: nat)
    requires Inv(s) && Offers(s, x, l) && Enabled(s, WatchReturns(k)) && k != l
    ensures Offers(WatchStep(s, k), x, l)
  {
    var y := s.launches[k].session;
    assert SessionInv(s, x) && SessionInv(s, y) && Own(s, y, k);
    assert LaunchInv(s, y, k);
  }

  lemma GoroutinesKeepOffer(s: State, step: Step, x: nat, l: nat)
    requires Inv(s) && Offers(s, x, l) && Worker(step).Some? && Enabled(s, step) && step != WatchReturns(l)
    ensures Offers(Next(s, step), x, l)
  {
    match step
    case LaunchFails(k) => FailKeepsOffer(s, k, None, x, l);
    case StartFails(k) => FailKeepsOffer(s, k, Some(k), x, l);
    case StartSucceeds(k) => SuccessKeepsOffer(s, k, x, l);
    case WatchReturns(k) => OtherCrashesKeepOffer(s, k, x, l);
    case Publish(k) => PublishKeepsOffer(s, k, x, l);
    case Spawn(k) => SpawnKeepsOffer(s, k, x, l);
  }

  /**
   As long as nothing has been forgotten, a client that somebody still holds after a step is still
   open and still offered: no idle stop, invalidation, configuration change, cleanup or crash of
   another client closes it. Only Close and its own crash do.
   */
  lemma HeldClientsStay(now: int, steps: seq<Step>, step: Step, x: nat, l: nat)
    requires NeverForgets(Initial(now), steps) && !step.Close? && step != WatchReturns(l)
    requires Offers(Exec(Initial(now), steps), x, l)
    requires Claims(Next(Exec(Initial(now), steps), step), Exec(Initial(now), steps).all[x].config.id) > 0
    ensures Offers(Next(Exec(Initial(now), steps), step), x, l)
  {
    var s := Exec(Initial(now), steps);
    InvAlways(now, steps);
    CountsAreExact(now, steps);
    ExactAtTheEnd(Initial(now), steps);
    if IsCall(step) {
      CallersKeepHeld(s, step, x, l);
    } else if step.StartupResult? {
      ResultKeepsHeld(s, step, x, l);
    } else if step.IdleStop? || step.RunCleanup? {
      StopsKeepHeld(s, step, x, l);
    } else if Worker(step).Some? && Enabled(s, step) {
      GoroutinesKeepOffer(s, step, x, l);
    }
  }

  // ----- idle sessions -----

  /**
   A client that nobody counts on is on its way out: its session's idle timer is armed or has
   fired, and the callback of a fired timer closes it unless somebody claims it first.
   */
  lemma UnusedClientsAreStopped(now: int, steps: seq<Step>, x: nat)
    requires InTable(Exec(Initial(now), steps), x)
    ensures var s := Exec(Initial(now), steps); var session := s.all[x];
      session.client.Some? && session.refs == 0 ==>
        && session.timer.Some? && session.timer.value < |s.timers|
        && s.timers[session.timer.value].status != Over
        && (s.timers[session.timer.value].status == Fired ==>
              var s' := Next(s, IdleStop(session.timer.value));
              !InTable(s', x) && session.client.value < |s'.launches|
              && s'.launches[session.client.value].client == Shut
              && s'.launches[session.client.value].process != Running)
  {
    var s := Exec(Initial(now), steps);
    InvAlways(now, steps);
    assert SessionInv(s, x);
    if s.all[x].client.Some? { assert LaunchInv(s, x, s.all[x].client.value); }
  }

  // ----- restarts -----

  /**
   Successive launches of a session are separated by the full wait for the failures so far,
   and there has been at least one failure whenever there is a restart.
   */
  lemma RestartsWait(now: int, steps: seq<Step>, k: nat, l: nat)
    requires k < l < |Exec(Initial(now), steps).launches|
    requires Exec(Initial(now), steps).launches[k].session == Exec(Initial(now), steps).launches[l].session
    ensures var s := Exec(Initial(now), steps);
      var earlier := s.launches[k]; var later := s.launches[l];
      && earlier.failure.Some? && earlier.failure.value.count >= 1
      && later.startedAt >= earlier.failure.value.at + Backoff(earlier.failure.value.count)
      && (later.failure.Some? ==> later.failure.value.count > earlier.failure.value.count)
  {
    var s := Exec(Initial(now), steps);
    InvAlways(now, steps);
    assert SessionInv(s, s.launches[k].session) && Own(s, s.launches[k].session, k) && Own(s, s.launches[k].session, l);
    assert BackedOff(s.launches[k], s.launches[l]);
  }
}
