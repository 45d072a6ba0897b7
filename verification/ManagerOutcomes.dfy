/** What each request to the session manager comes to, in terms of clients, startups and the run so far. */
module ManagerOutcomes {
  import opened Collections
  import opened ManagerModel
  import opened ManagerInvariant
  import opened ManagerProofs
  import opened ManagerClaims
  import opened ManagerDismissal
  import opened ManagerReport
  import opened ManagerTheorems

  /** The session in the table offers some open client. */
  ghost predicate HasClient(s: State, x: nat) {
    exists l :: Offers(s, x, l)
  }

  lemma ClientIsOffered(s: State, x: nat)
    requires Inv(s) && InTable(s, x)
    ensures HasClient(s, x) <==> s.all[x].client.Some?
    ensures s.all[x].client.Some? ==> Offers(s, x, s.all[x].client.value)
  {
    assert SessionInv(s, x);
    if s.all[x].client.Some? {
      assert LaunchInv(s, x, s.all[x].client.value);
      assert Offers(s, x, s.all[x].client.value);
    }
  }

  // ----- Client -----

  /** The project's session is not the one asked for any more. */
  ghost predicate Refused(now: int, steps: seq<Step>, cfg: Config) {
    var s := Exec(Initial(now), steps);
    cfg.id in s.sessions &&
    (Dismissed(now, steps, s.sessions[cfg.id])
     || (s.sessions[cfg.id] < |s.all| && s.all[s.sessions[cfg.id]].config != cfg))
  }

  predicate NotAsked(s: State, cfg: Config) {
    cfg.id in s.sessions && s.sessions[cfg.id] < |s.all|
    && (s.all[s.sessions[cfg.id]].stale || s.all[s.sessions[cfg.id]].config != cfg)
  }

  lemma RefusedIsNotAsked(now: int, steps: seq<Step>, cfg: Config)
    ensures Refused(now, steps, cfg) <==> NotAsked(Exec(Initial(now), steps), cfg)
  {
    var s := Exec(Initial(now), steps);
    InvAlways(now, steps);
    if cfg.id in s.sessions { MarkedExactlyWhenDismissed(now, steps, s.sessions[cfg.id]); }
  }

  /**
   A request is refused once its session has been dismissed or has another configuration: with an
   error while the session is in use, and by taking it out of the table and trying again otherwise.
   */
  lemma RefusalsFollowDismissal(now: int, steps: seq<Step>, config: Config)
    ensures var s := Exec(Initial(now), steps); var cfg := Normalize(config); var s' := Next(s, ClientCall(config));
      var answer := Decide(s, cfg);
      && (answer == ErrClosed <==> s.closed)
      && (answer in {ErrChanged, Retry} <==> Refused(now, steps, cfg))
      && (answer == ErrChanged ==> Refs(s, cfg.id) > 0 && s'.sessions == s.sessions && s'.launches == s.launches)
      && (answer == Retry <==> cfg.id in s.sessions && cfg.id !in s'.sessions)
      && (answer == Retry ==> Refs(s, cfg.id) == 0)
  {
    InvAlways(now, steps);
    RefusedIsNotAsked(now, steps, Normalize(config));
    RefusalStep(Exec(Initial(now), steps), Normalize(config));
  }

  lemma RefusalStep(s: State, cfg: Config)
    requires Inv(s)
    ensures var s' := ClientStep(s, cfg); var answer := Decide(s, cfg);
      && (answer == ErrClosed <==> s.closed)
      && (answer in {ErrChanged, Retry} <==> NotAsked(s, cfg))
      && (answer == ErrChanged ==> Refs(s, cfg.id) > 0 && s'.sessions == s.sessions && s'.launches == s.launches)
      && (answer == Retry <==> cfg.id in s.sessions && cfg.id !in s'.sessions)
      && (answer == Retry ==> Refs(s, cfg.id) == 0)
  {
  }

  /**
   A request gets the client exactly when its session is not refused and offers one. Then, and only
   then, the caller holds one more, and the client stays open and offered.
   */
  lemma RequestsGetTheClient(now: int, steps: seq<Step>, config: Config)
    ensures var s := Exec(Initial(now), steps); var cfg := Normalize(config); var s' := Next(s, ClientCall(config));
      var answer := Decide(s, cfg);
      && (answer == Claimed <==>
            cfg.id in s.sessions && !Refused(now, steps, cfg) && HasClient(s, s.sessions[cfg.id]))
      && (answer == Claimed <==> Claims(s', cfg.id) == Claims(s, cfg.id) + 1)
      && (answer != Claimed ==> s'.claims == s.claims)
      && (answer == Claimed ==>
            && Refs(s', cfg.id) == Refs(s, cfg.id) + 1 && s'.sessions == s.sessions
            && forall l :: Offers(s, s.sessions[cfg.id], l) ==> Offers(s', s.sessions[cfg.id], l))
  {
    var s, cfg := Exec(Initial(now), steps), Normalize(config);
    InvAlways(now, steps);
    RefusedIsNotAsked(now, steps, cfg);
    if cfg.id in s.sessions { ClientIsOffered(s, s.sessions[cfg.id]); }
    ClaimStep(s, cfg);
  }

  lemma ClaimStep(s: State, cfg: Config)
    requires Inv(s)
    ensures var s' := ClientStep(s, cfg); var answer := Decide(s, cfg);
      && (answer == Claimed <==>
            cfg.id in s.sessions && !NotAsked(s, cfg) && s.all[s.sessions[cfg.id]].client.Some?)
      && (answer == Claimed <==> Claims(s', cfg.id) == Claims(s, cfg.id) + 1)
      && (answer != Claimed ==> s'.claims == s.claims)
      && (answer == Claimed ==>
            && Refs(s', cfg.id) == Refs(s, cfg.id) + 1 && s'.sessions == s.sessions
            && forall l :: Offers(s, s.sessions[cfg.id], l) ==> Offers(s', s.sessions[cfg.id], l))
  {
  }

  /** A startup that begins now. */
  function Begun(x: nat, now: int): Launch {
    Launch(x, Starting, Unspawned, Absent, false, false, now, None)
  }

  /**
   Any other request that is not refused waits for a startup, beginning one if there is none, unless
   the session is backing off.
   */
  lemma RequestsStartClangd(now: int, steps: seq<Step>, config: Config)
    ensures var s := Exec(Initial(now), steps); var cfg := Normalize(config); var s' := Next(s, ClientCall(config));
      var answer := Decide(s, cfg);
      && (answer == Wait <==> SessionState(s', cfg.id) == IsStarting && !Refused(now, steps, cfg))
      && (answer == ErrBackingOff <==>
            && SessionState(s, cfg.id) in {IsDegraded, IsAbsent} && !Refused(now, steps, cfg)
            && cfg.id in s.sessions && s' == s)
      && (|s'.launches| > |s.launches| <==> answer == Wait && SessionState(s, cfg.id) != IsStarting)
      && (|s'.launches| > |s.launches| ==>
            && s'.launches == s.launches + [Begun(s'.sessions[cfg.id], s.now)]
            && InTable(s', s'.sessions[cfg.id]) && s'.all[s'.sessions[cfg.id]].config == cfg)
      && (answer == Wait && SessionState(s, cfg.id) == IsStarting ==> s' == s)
  {
    var s, cfg := Exec(Initial(now), steps), Normalize(config);
    InvAlways(now, steps);
    RefusedIsNotAsked(now, steps, cfg);
    if cfg.id in s.sessions { assert SessionInv(s, s.sessions[cfg.id]); }
    WaitStep(s, cfg);
  }

  lemma WaitStep(s: State, cfg: Config)
    requires Inv(s)
    ensures var s' := ClientStep(s, cfg); var answer := Decide(s, cfg);
      && (answer == Wait <==> SessionState(s', cfg.id) == IsStarting && !NotAsked(s, cfg))
      && (answer == ErrBackingOff <==>
            && SessionState(s, cfg.id) in {IsDegraded, IsAbsent} && !NotAsked(s, cfg)
            && cfg.id in s.sessions && s' == s)
      && (|s'.launches| > |s.launches| <==> answer == Wait && SessionState(s, cfg.id) != IsStarting)
      && (|s'.launches| > |s.launches| ==>
            && s'.launches == s.launches + [Begun(s'.sessions[cfg.id], s.now)]
            && InTable(s', s'.sessions[cfg.id]) && s'.all[s'.sessions[cfg.id]].config == cfg)
      && (answer == Wait && SessionState(s, cfg.id) == IsStarting ==> s' == s)
  {
  }

  // ----- how a client ends -----

  /** The last user of a dismissed session leaves, or a session nobody uses is dismissed or idle. */
  ghost predicate Retires(now: int, steps: seq<Step>, step: Step, x: nat) {
    var s := Exec(Initial(now), steps);
    InTable(s, x) &&
    match step
    case Release(id) => id == s.all[x].config.id && s.all[x].refs == 1 && Dismissed(now, steps, x)
    case IdleStop(t) => Enabled(s, step) && s.timers[t].session == x && s.all[x].refs == 0
    case _ => s.all[x].refs == 0 && (Dismisses(s, step, x) || (Asks(s, step, x) && Dismissed(now, steps, x)))
  }

  /** A request for the session's project. */
  predicate Asks(s: State, step: Step, x: nat)
    requires x < |s.all|
  {
    step.ClientCall? && Normalize(step.cfg).id == s.all[x].config.id
  }

  /** The same, by the session's mark. */
  predicate TakesOut(s: State, step: Step, x: nat)
    requires x < |s.all|
  {
    match step
    case Release(id) => id == s.all[x].config.id && s.all[x].refs == 1 && s.all[x].stale
    case IdleStop(t) => Enabled(s, step) && s.timers[t].session == x && s.all[x].refs == 0
    case _ => s.all[x].refs == 0 && (Dismisses(s, step, x) || (Asks(s, step, x) && s.all[x].stale))
  }

  /** The session is out of the table, and all it had is disposed of. */
  predicate TakenOut(s: State, s': State, x: nat)
    requires x < |s.all|
  {
    !InTable(s', x) && |s'.launches| >= |s.launches| &&
    forall l :: 0 <= l < |s.launches| ==>
      && (s.all[x].client == Some(l) ==> s'.launches[l].client != Open)
      && (s.all[x].process == Some(l) ==> s'.launches[l].process != Running)
      && (s.all[x].cancel == Some(l) ==> s'.launches[l].canceled)
  }

  /** Whether a session is taken out of the table by a step, with all it had, or stays. */
  predicate StaysOrGoes(s: State, s': State, step: Step, x: nat)
    requires x < |s.all|
  {
    && (InTable(s', x) <==> !TakesOut(s, step, x))
    && (TakesOut(s, step, x) ==> TakenOut(s, s', x))
  }

  lemma ClientTakesOut(s: State, step: Step, x: nat)
    requires Inv(s) && InTable(s, x) && step.ClientCall?
    ensures StaysOrGoes(s, Next(s, step), step, x)
  {
    var cfg := Normalize(step.cfg);
    if NotAsked(s, cfg) && !s.closed {
      MarkingTakesOut(s, s.sessions[cfg.id], x);
      assert Next(s, step) == MarkedOrGone(s, s.sessions[cfg.id]);
    } else {
      OtherRequestsKeepTable(s, cfg, x);
    }
  }

  /** A session is marked, and leaves the table if nobody counts on it. */
  function MarkedOrGone(s: State, y: nat): State
    requires y < |s.all|
  {
    var marked := SetSession(s, y, s.all[y].(stale := true));
    if s.all[y].refs != 0 then marked else Retire(marked, y)
  }

  lemma MarkingTakesOut(s: State, y: nat, x: nat)
    requires InTable(s, y) && InTable(s, x)
    ensures var s' := MarkedOrGone(s, y);
      && (InTable(s', x) <==> y != x || s.all[x].refs != 0)
      && (y == x && s.all[x].refs == 0 ==> TakenOut(s, s', x))
  {
  }

  lemma OtherRequestsKeepTable(s: State, cfg: Config, x: nat)
    requires Inv(s) && InTable(s, x) && !NotAsked(s, cfg)
    ensures InTable(ClientStep(s, cfg), x)
  {
  }

  lemma DroppedTakesOut(s: State, x: nat)
    requires InTable(s, x) && s.all[x].refs > 0
    ensures var s' := Dropped(s, x); var last := s.all[x].refs == 1 && s.all[x].stale;
      (InTable(s', x) <==> !last) && (last ==> TakenOut(s, s', x))
  {
  }

  lemma DroppedLeavesOthers(s: State, y: nat, x: nat)
    requires InTable(s, y) && InTable(s, x) && y != x && s.all[y].refs > 0
    ensures InTable(Dropped(s, y), x)
  {
  }

  lemma ReleaseTakesOut(s: State, step: Step, x: nat)
    requires Inv(s) && InTable(s, x) && step.Release?
    ensures StaysOrGoes(s, Next(s, step), step, x)
  {
    var id := step.id;
    var returned := Returned(s, id);
    if id in s.sessions {
      var y := s.sessions[id];
      assert InTable(returned, y) && InTable(returned, x);
      if s.all[y].refs > 0 {
        if y == x { DroppedTakesOut(returned, x); } else { DroppedLeavesOthers(returned, y, x); }
        assert Next(s, step) == Dropped(returned, y);
      }
    }
  }

  lemma InvalidateTakesOut(s: State, step: Step, x: nat)
    requires Inv(s) && InTable(s, x) && step.Invalidate?
    ensures StaysOrGoes(s, Next(s, step), step, x)
  {
    if step.id in s.sessions {
      MarkingTakesOut(s, s.sessions[step.id], x);
      assert Next(s, step) == MarkedOrGone(s, s.sessions[step.id]);
    }
  }

  lemma IdleTakesOut(s: State, step: Step, x: nat)
    requires Inv(s) && InTable(s, x) && step.IdleStop?
    ensures StaysOrGoes(s, Next(s, step), step, x)
  {
  }

  lemma OthersTakeNothingOut(s: State, step: Step, x: nat)
    requires Inv(s) && InTable(s, x) && !IsCall(step) && !step.IdleStop? && !step.Close?
    ensures StaysOrGoes(s, Next(s, step), step, x)
  {
    if Worker(step).Some? { GoroutinesKeepTable(s, step, x); }
  }

  lemma StepTakesOut(s: State, step: Step, x: nat)
    requires Inv(s) && InTable(s, x) && !step.Close?
    ensures StaysOrGoes(s, Next(s, step), step, x)
  {
    match step
    case ClientCall(_) => ClientTakesOut(s, step, x);
    case Release(_) => ReleaseTakesOut(s, step, x);
    case Invalidate(_) => InvalidateTakesOut(s, step, x);
    case IdleStop(_) => IdleTakesOut(s, step, x);
    case _ => OthersTakeNothingOut(s, step, x);
  }

  /**
   When a session leaves the table before Close: exactly when the last user of a dismissed one
   leaves, or a session nobody counts on is dismissed, asked for after it has been, or found idle.
   Its client is closed, its process killed and its context canceled in the same step.
   */
  lemma SessionsLeaveExactlyWhen(now: int, steps: seq<Step>, step: Step, x: nat)
    requires InTable(Exec(Initial(now), steps), x) && !step.Close?
    ensures var s := Exec(Initial(now), steps); var s' := Next(s, step);
      && (!InTable(s', x) <==> Retires(now, steps, step, x))
      && (!InTable(s', x) ==> TakenOut(s, s', x))
  {
    InvAlways(now, steps);
    MarkedExactlyWhenDismissed(now, steps, x);
    StepTakesOut(Exec(Initial(now), steps), step, x);
  }

  /** Being dismissed is for good. */
  lemma DismissedForever(now: int, before: seq<Step>, step: Step, after: seq<Step>, x: nat)
    requires Dismisses(Exec(Initial(now), before), step, x)
    ensures Dismissed(now, before + [step] + after, x)
  {
    var steps := before + [step] + after;
    assert steps[..|before|] == before && steps[|before|] == step;
    assert DismissesAt(now, steps, |before|, x);
  }

  /**
   A session that has been invalidated, or asked for with another configuration, is on its way out
   as long as it is in the table: no request gets its client any more, and the release that brings
   its count to zero takes it out and closes its client.
   */
  lemma DismissedSessionsRetire(now: int, before: seq<Step>, step: Step, after: seq<Step>, x: nat, config: Config)
    requires Dismisses(Exec(Initial(now), before), step, x)
    ensures var s := Exec(Initial(now), before + [step] + after); var cfg := Normalize(config);
      InTable(s, x) && cfg.id == s.all[x].config.id ==>
        && Decide(s, cfg) != Claimed && Next(s, ClientCall(config)).claims == s.claims
        && (Refs(s, cfg.id) == 1 ==> TakenOut(s, Next(s, Release(cfg.id)), x))
        && (Refs(s, cfg.id) == 0 ==> TakenOut(s, Next(s, ClientCall(config)), x))
  {
    var steps := before + [step] + after;
    var s, cfg := Exec(Initial(now), steps), Normalize(config);
    DismissedForever(now, before, step, after, x);
    InvAlways(now, steps);
    if InTable(s, x) && cfg.id == s.all[x].config.id {
      assert Refused(now, steps, cfg);
      RequestsGetTheClient(now, steps, config);
      SessionsLeaveExactlyWhen(now, steps, Release(cfg.id), x);
      SessionsLeaveExactlyWhen(now, steps, ClientCall(config), x);
    }
  }

  // ----- clients of sessions that stay -----

  /** A session that offers a client still does, unless it has left the table. */
  predicate OfferStays(s: State, s': State, x: nat, l: nat) {
    Offers(s, x, l) && InTable(s', x) ==> Offers(s', x, l)
  }

  lemma ClientKeepsOffer(s: State, cfg: Config, x: nat, l: nat)
    requires Inv(s)
    ensures OfferStays(s, ClientStep(s, cfg), x, l)
  {
    if Offers(s, x, l) && cfg.id in s.sessions && s.sessions[cfg.id] != x {
      assert InTable(s, s.sessions[cfg.id]);
      RetireKeepsOthers(s, s.sessions[cfg.id], x, l);
    }
  }

  lemma ReleaseKeepsOffer(s: State, id: string, x: nat, l: nat)
    requires Inv(s)
    ensures OfferStays(s, ReleaseStep(s, id), x, l)
  {
    if Offers(s, x, l) && id in s.sessions && s.sessions[id] != x {
      assert InTable(s, s.sessions[id]);
      RetireKeepsOthers(s, s.sessions[id], x, l);
    }
  }

  lemma InvalidateKeepsOffer(s: State, id: string, x: nat, l: nat)
    requires Inv(s)
    ensures OfferStays(s, InvalidateStep(s, id), x, l)
  {
    if Offers(s, x, l) && id in s.sessions && s.sessions[id] != x {
      assert InTable(s, s.sessions[id]);
      RetireKeepsOthers(s, s.sessions[id], x, l);
    }
  }

  lemma IdleKeepsOffer(s: State, t: nat, x: nat, l: nat)
    requires Inv(s) && Offers(s, x, l) && Enabled(s, IdleStop(t)) && InTable(IdleStep(s, t), x)
    ensures Offers(IdleStep(s, t), x, l)
  {
    var y := s.timers[t].session;
    if y != x && InTable(s, y) { RetireKeepsOthers(s, y, x, l); }
  }

  lemma CleanupKeepsOffer(s: State, c: Cleanup, x: nat, l: nat)
    requires Inv(s) && Offers(s, x, l) && c in s.cleanups
    ensures Offers(Next(s, RunCleanup(c)), x, l)
  {
    assert SessionInv(s, x) && Own(s, x, l);
    assert s.launches[l].phase == Watching && !Refers(c, l);
  }

  lemma EventsKeepOffer(s: State, step: Step, x: nat, l: nat)
    requires Inv(s) && Offers(s, x, l) && InTable(Next(s, step), x)
    requires Worker(step).None? && !IsCall(step) && !step.Close?
    ensures Offers(Next(s, step), x, l)
  {
    match step
    case IdleStop(t) => if Enabled(s, step) { IdleKeepsOffer(s, t, x, l); }
    case RunCleanup(c) => if Enabled(s, step) { CleanupKeepsOffer(s, c, x, l); }
    case StartupResult(_) => ResultKeepsHeld(s, step, x, l);
    case _ =>
  }

  lemma StepKeepsOffer(s: State, step: Step, x: nat, l: nat)
    requires Inv(s) && Offers(s, x, l) && InTable(Next(s, step), x) && !step.Close? && step != WatchReturns(l)
    ensures Offers(Next(s, step), x, l)
  {
    if IsCall(step) {
      CallsKeepOffer(s, step, x, l);
    } else if Worker(step).None? {
      EventsKeepOffer(s, step, x, l);
    } else if Enabled(s, step) {
      GoroutinesKeepOffer(s, step, x, l);
    }
  }

  lemma CallsKeepOffer(s: State, step: Step, x: nat, l: nat)
    requires Inv(s) && IsCall(step)
    ensures OfferStays(s, Next(s, step), x, l)
  {
    match step
    case ClientCall(cfg) => ClientKeepsOffer(s, Normalize(cfg), x, l);
    case Release(id) => ReleaseKeepsOffer(s, id, x, l);
    case Invalidate(id) => InvalidateKeepsOffer(s, id, x, l);
  }

  lemma OwnCrashEndsOffer(s: State, x: nat, l: nat)
    requires Inv(s) && Offers(s, x, l) && Enabled(s, WatchReturns(l))
    ensures var s' := WatchStep(s, l);
      InTable(s', x) && s'.all[x].client.None? && s'.launches[l].client == Shut && s'.launches[l].canceled
  {
    assert SessionInv(s, x) && Own(s, x, l);
  }

  /** Before Close, an offered client stays open and offered until its session leaves the table or its process dies. */
  lemma OffersEndExactlyWhen(now: int, steps: seq<Step>, step: Step, x: nat, l: nat)
    requires Offers(Exec(Initial(now), steps), x, l) && !step.Close?
    ensures var s := Exec(Initial(now), steps); var s' := Next(s, step);
      && (!Offers(s', x, l) <==> Retires(now, steps, step, x) || (step == WatchReturns(l) && Enabled(s, step)))
      && (!Offers(s', x, l) ==> l < |s'.launches| && s'.launches[l].client != Open)
  {
    InvAlways(now, steps);
    SessionsLeaveExactlyWhen(now, steps, step, x);
    OfferEnds(Exec(Initial(now), steps), step, x, l);
  }

  lemma OfferEnds(s: State, step: Step, x: nat, l: nat)
    requires Inv(s) && Offers(s, x, l) && !step.Close?
    requires !InTable(Next(s, step), x) ==> TakenOut(s, Next(s, step), x)
    ensures var s' := Next(s, step);
      && (!Offers(s', x, l) <==> !InTable(s', x) || (step == WatchReturns(l) && Enabled(s, step)))
      && (!Offers(s', x, l) ==> l < |s'.launches| && s'.launches[l].client != Open)
  {
    if step == WatchReturns(l) {
      if Enabled(s, step) { OwnCrashEndsOffer(s, x, l); }
    } else if InTable(Next(s, step), x) {
      StepKeepsOffer(s, step, x, l);
    }
  }

  // ----- Release -----

  /** A release gives one claim back. The session counts one reference less, and if it is the last, waits to be idle. */
  lemma ReleasesGiveBack(now: int, steps: seq<Step>, id: string)
    ensures var s := Exec(Initial(now), steps); var s' := Next(s, Release(id));
      && Claims(s', id) == (if Claims(s, id) > 0 then Claims(s, id) - 1 else 0)
      && (forall other :: other != id ==> Claims(s', other) == Claims(s, other) && Refs(s', other) == Refs(s, other))
      && Refs(s', id) == (if Refs(s, id) > 0 then Refs(s, id) - 1 else 0)
      && (id in s'.sessions && Refs(s, id) == 1 ==>
            var timer := s'.all[s'.sessions[id]].timer;
            timer.Some? && timer.value < |s'.timers| && s'.timers[timer.value] == Timer(s'.sessions[id], Armed))
  {
    InvAlways(now, steps);
    ReleaseCounts(Exec(Initial(now), steps), id);
  }

  lemma ReleaseCounts(s: State, id: string)
    requires Inv(s)
    ensures var s' := ReleaseStep(s, id);
      && Claims(s', id) == (if Claims(s, id) > 0 then Claims(s, id) - 1 else 0)
      && (forall other :: other != id ==> Claims(s', other) == Claims(s, other) && Refs(s', other) == Refs(s, other))
      && Refs(s', id) == (if Refs(s, id) > 0 then Refs(s, id) - 1 else 0)
      && (id in s'.sessions && Refs(s, id) == 1 ==>
            var timer := s'.all[s'.sessions[id]].timer;
            timer.Some? && timer.value < |s'.timers| && s'.timers[timer.value] == Timer(s'.sessions[id], Armed))
  {
    if id in s.sessions { assert SessionInv(s, s.sessions[id]); }
  }

  // ----- how a startup ends -----

  /** The waiters of a startup are woken by its success, and one that finds the client claims it. */
  lemma SuccessesAreOffered(now: int, steps: seq<Step>, l: nat)
    requires Enabled(Exec(Initial(now), steps), StartSucceeds(l))
    ensures var s := Exec(Initial(now), steps); var s' := Next(s, StartSucceeds(l)); var x := s.launches[l].session;
      if InTable(s, x) then
        && Offers(s', x, l) && s'.launches[l].woken && s'.all[x].refs == 0
        && s'.all[x].timer.Some? && SessionState(s', s.all[x].config.id) == IsRunning
      else
        && s'.sessions == s.sessions && s'.launches[l].phase == Done
        && exists c :: c in s'.cleanups && c.process == Some(l) && c.client == Some(l)
  {
    var s := Exec(Initial(now), steps);
    InvAlways(now, steps);
    var x := s.launches[l].session;
    assert SessionInv(s, x) && Own(s, x, l) && LaunchInv(s, x, l);
    if InTable(s, x) { SuccessOffers(s, l); } else { LateSuccess(s, l); }
  }

  lemma SuccessOffers(s: State, l: nat)
    requires Inv(s) && Enabled(s, StartSucceeds(l)) && InTable(s, s.launches[l].session)
    requires LaunchInv(s, s.launches[l].session, l)
    ensures var s' := SucceedStep(s, l); var x := s.launches[l].session;
      && Offers(s', x, l) && s'.launches[l].woken && s'.all[x].refs == 0
      && s'.all[x].timer.Some? && SessionState(s', s.all[x].config.id) == IsRunning
  {
  }

  lemma LateSuccess(s: State, l: nat)
    requires Inv(s) && Enabled(s, StartSucceeds(l)) && !InTable(s, s.launches[l].session)
    ensures var s' := SucceedStep(s, l);
      && s'.sessions == s.sessions && s'.launches[l].phase == Done
      && exists c :: c in s'.cleanups && c.process == Some(l) && c.client == Some(l)
  {
    var c := Cleanup(Some(l), Some(l), s.all[s.launches[l].session].cancel);
    assert c in SucceedStep(s, l).cleanups;
  }

  /** A failed startup of a session in the table wakes its waiters and is reported. */
  lemma FailuresAreReported(now: int, steps: seq<Step>, step: Step, l: nat)
    requires step == LaunchFails(l) || step == StartFails(l)
    requires Enabled(Exec(Initial(now), steps), step)
    ensures var s := Exec(Initial(now), steps); var s' := Next(s, step); var x := s.launches[l].session;
      InTable(s, x) ==>
        && InTable(s', x) && s'.launches[l].woken && s'.all[x].refs == s.all[x].refs
        && SessionState(s', s.all[x].config.id) == IsDegraded
  {
    var s := Exec(Initial(now), steps);
    InvAlways(now, steps);
    var x := s.launches[l].session;
    assert SessionInv(s, x) && Own(s, x, l) && LaunchInv(s, x, l);
    FailureIsReported(s, l, if step == LaunchFails(l) then None else Some(l));
  }

  lemma FailureIsReported(s: State, l: nat, owned: Option<nat>)
    requires Inv(s) && CanFail(s, l, owned) && LaunchInv(s, s.launches[l].session, l)
    ensures var s' := FailStep(s, l, owned); var x := s.launches[l].session;
      InTable(s, x) ==>
        && InTable(s', x) && s'.launches[l].woken && s'.all[x].refs == s.all[x].refs
        && SessionState(s', s.all[x].config.id) == IsDegraded
  {
  }

  /** A woken waiter gets the client exactly when its session is in the table and offers one. */
  lemma WaitersGetTheClient(now: int, steps: seq<Step>, l: nat)
    requires Enabled(Exec(Initial(now), steps), StartupResult(l))
    ensures var s := Exec(Initial(now), steps); var s' := Next(s, StartupResult(l)); var x := s.launches[l].session;
      && (HasClient(s, x) ==>
            var id := s.all[x].config.id;
            && Claims(s', id) == Claims(s, id) + 1 && Refs(s', id) == Refs(s, id) + 1
            && s'.sessions == s.sessions && s'.launches == s.launches)
      && (!HasClient(s, x) ==> s' == s)
  {
    var s := Exec(Initial(now), steps);
    InvAlways(now, steps);
    if InTable(s, s.launches[l].session) { ClientIsOffered(s, s.launches[l].session); }
  }

  /** A crash shuts the client and cancels the context; the session stays, with its references and its idle timer. */
  lemma CrashesClear(now: int, steps: seq<Step>, l: nat)
    requires Crash(Exec(Initial(now), steps), WatchReturns(l))
    ensures var s := Exec(Initial(now), steps); var s' := Next(s, WatchReturns(l)); var x := s.launches[l].session;
      && Offers(s, x, l) && InTable(s', x) && !HasClient(s', x) && s'.sessions == s.sessions
      && s'.launches[l].client == Shut && s'.launches[l].canceled && s'.launches[l].phase == Done
      && s'.all[x].refs == s.all[x].refs && s'.all[x].timer == s.all[x].timer && s'.timers == s.timers
  {
    var s := Exec(Initial(now), steps);
    InvAlways(now, steps);
    var x := s.launches[l].session;
    assert SessionInv(s, x) && Own(s, x, l) && LaunchInv(s, x, l);
  }

  /** Values that are not set stand for one thread and five minutes. */
  lemma UnsetValuesAreDefaults(cfg: Config)
    ensures cfg.threads < 1 ==> Normalize(cfg) == Normalize(cfg.(threads := 1))
    ensures cfg.idleTimeout <= 0 ==> Normalize(cfg) == Normalize(cfg.(idleTimeout := 300 * SECOND))
    ensures cfg.threads >= 1 && cfg.idleTimeout > 0 ==> Normalize(cfg) == cfg
  {
  }

  // ----- Close -----

  /**
   Close empties the table, wakes the waiters of every session that was in it, stops their idle
   timers, and leaves what they had to cleanups.
   */
  lemma CloseLetsGo(now: int, steps: seq<Step>, x: nat)
    requires InTable(Exec(Initial(now), steps), x)
    ensures var s := Exec(Initial(now), steps); var s' := Next(s, Close);
      && s'.closed && s'.sessions == map[] && Held(s, x) in s'.cleanups
      && |s'.launches| == |s.launches| && |s'.timers| == |s.timers|
      && (forall l :: Own(s, x, l) ==> s'.launches[l].woken)
      && (forall t :: 0 <= t < |s.timers| && s.all[x].timer == Some(t) ==> s'.timers[t].status != Armed)
  {
    var s := Exec(Initial(now), steps);
    InvAlways(now, steps);
    assert SessionInv(s, x);
  }
}
