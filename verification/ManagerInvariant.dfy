/**
 The inductive invariant of the session manager. Sessions do not interfere with each other,
 so it is a statement about each session with the launches, timers and cleanups of its own.
 */
module ManagerInvariant {
  import opened Collections
  import opened ManagerModel

  predicate Own(s: State, x: int, l: int) {
    0 <= l < |s.launches| && s.launches[l].session == x
  }

  predicate Refers(c: Cleanup, l: nat) {
    c.process == Some(l) || c.client == Some(l) || c.cancel == Some(l)
  }

  /** The table refers to known sessions under their own names, and is empty once closed. */
  ghost predicate TableInv(s: State) {
    && (forall id :: id in s.sessions ==> s.sessions[id] < |s.all| && s.all[s.sessions[id]].config.id == id)
    && (s.closed ==> s.sessions == map[])
    && (forall l :: 0 <= l < |s.launches| ==> s.launches[l].session < |s.all|)
    && (forall t :: 0 <= t < |s.timers| ==> s.timers[t].session < |s.all|)
    && (forall c, l: nat :: c in s.cleanups && Refers(c, l) ==> l < |s.launches|)
  }

  /** What a session in the table refers to belongs to it and is in the matching phase. */
  ghost predicate HolderInv(s: State, x: nat)
    requires x < |s.all|
  {
    var session := s.all[x];
    InTable(s, x) ==>
      && (session.starting.Some? ==>
            Own(s, x, session.starting.value) && s.launches[session.starting.value].InFlight() && session.client.None?)
      && (session.client.Some? ==>
            && Own(s, x, session.client.value) && s.launches[session.client.value].phase == Watching
            && session.process == session.client && session.starting.None? && !session.startErr)
      && (session.process.Some? ==>
            session.process == session.client
            || (session.process == session.starting && s.launches[session.starting.value].phase == Initializing))
      && session.cancel == (if session.client.Some? then session.client else session.starting)
  }

  /** A goroutine of a launch is known to its session as long as that is in the table. */
  ghost predicate WorkerInv(s: State, x: nat, l: nat)
    requires x < |s.all| && Own(s, x, l)
  {
    var launch := s.launches[l];
    var session := s.all[x];
    && (launch.phase == Starting ==> launch.process == Unspawned)
    && (launch.phase == Starting || launch.phase == Spawned ==> launch.client == Absent)
    && (launch.phase == Watching || launch.failure.Some? ==> launch.woken)
    && (InTable(s, x) ==>
          && (launch.InFlight() ==> session.starting == Some(l))
          && (launch.phase == Initializing ==> session.process == Some(l) && launch.client == Open)
          && (launch.phase == Watching ==> session.client == Some(l) && launch.client == Open))
  }

  /** References stay in the family; the startup channels still open are exactly the one referred to, if any. */
  ghost predicate ChannelInv(s: State, x: nat)
    requires x < |s.all|
  {
    && (s.all[x].starting.Some? ==> Own(s, x, s.all[x].starting.value))
    && (s.all[x].cancel.Some? ==> Own(s, x, s.all[x].cancel.value))
    && (forall l :: Own(s, x, l) ==> (!s.launches[l].woken <==> s.all[x].starting == Some(l)))
  }

  ghost predicate AwaitsKill(s: State, l: nat) { exists c :: c in s.cleanups && c.process == Some(l) }
  ghost predicate AwaitsClose(s: State, l: nat) { exists c :: c in s.cleanups && c.client == Some(l) }
  ghost predicate AwaitsCancel(s: State, l: nat) { exists c :: c in s.cleanups && c.cancel == Some(l) }

  /** Somebody answers for every running process, open client and live context. */
  ghost predicate OwnedInv(s: State, x: nat, l: nat)
    requires x < |s.all| && Own(s, x, l)
  {
    var launch := s.launches[l];
    var session := s.all[x];
    && (launch.process == Running ==>
          launch.phase == Spawned || (InTable(s, x) && session.process == Some(l)) || AwaitsKill(s, l))
    && (launch.client == Open ==>
          launch.phase == Initializing || (InTable(s, x) && session.client == Some(l)) || AwaitsClose(s, l))
    && (!launch.canceled ==> (InTable(s, x) && session.cancel == Some(l)) || AwaitsCancel(s, l))
  }

  /** Cleanups never reach what a session in the table still uses. */
  ghost predicate CleanupInv(s: State, x: nat)
    requires x < |s.all|
  {
    forall c, l: nat :: c in s.cleanups && Refers(c, l) && Own(s, x, l) ==>
      s.launches[l].phase == Done || !InTable(s, x)
  }

  /** An unused client always has its idle timer armed or already fired; a used one has none. */
  ghost predicate IdleInv(s: State, x: nat)
    requires x < |s.all|
  {
    var session := s.all[x];
    InTable(s, x) ==>
      && (session.refs > 0 ==> session.timer.None?)
      && (session.timer.Some? ==>
            && session.timer.value < |s.timers| && s.timers[session.timer.value].session == x
            && s.timers[session.timer.value].status != Over)
      && (session.client.Some? && session.refs == 0 ==> session.timer.Some?)
  }

  /** Reference counts never exceed what callers hold. */
  ghost predicate ClaimsInv(s: State, x: nat)
    requires x < |s.all|
  {
    InTable(s, x) ==> s.all[x].refs <= Claims(s, s.all[x].config.id)
  }

  /** Failures are counted from one and hold the next start back for the full wait. */
  ghost predicate FailureInv(s: State, x: nat, l: nat)
    requires x < |s.all| && Own(s, x, l)
  {
    var launch := s.launches[l];
    var session := s.all[x];
    && launch.startedAt <= s.now
    && (launch.failure.Some? ==>
          && 1 <= launch.failure.value.count <= session.failures
          && session.nextStart.Some?
          && launch.failure.value.at + Backoff(launch.failure.value.count) <= session.nextStart.value)
    && (InTable(s, x) ==> (launch.phase == Done <==> launch.failure.Some?))
    && (InTable(s, x) && launch.phase != Done && session.nextStart.Some? ==>
          session.nextStart.value <= launch.startedAt)
  }

  predicate BackedOff(earlier: Launch, later: Launch) {
    && earlier.phase == Done
    && earlier.failure.Some? && earlier.failure.value.count >= 1
    && earlier.failure.value.at + Backoff(earlier.failure.value.count) <= later.startedAt
    && (later.failure.Some? ==> earlier.failure.value.count < later.failure.value.count)
  }

  ghost predicate OrderInv(s: State, x: nat) {
    forall k, l :: Own(s, x, k) && Own(s, x, l) && k < l ==> BackedOff(s.launches[k], s.launches[l])
  }

  ghost predicate LaunchInv(s: State, x: nat, l: nat)
    requires x < |s.all| && Own(s, x, l)
  {
    WorkerInv(s, x, l) && OwnedInv(s, x, l) && FailureInv(s, x, l)
  }

  ghost predicate SessionInv(s: State, x: nat)
    requires x < |s.all|
  {
    && HolderInv(s, x) && ChannelInv(s, x) && CleanupInv(s, x) && IdleInv(s, x) && ClaimsInv(s, x)
    && OrderInv(s, x)
    && forall l :: Own(s, x, l) ==> LaunchInv(s, x, l)
  }

  ghost predicate Inv(s: State) {
    TableInv(s) && forall x :: 0 <= x < |s.all| ==> SessionInv(s, x)
  }

  // ----- steps that leave a session alone -----

  /** Nothing that belongs to the session has changed, except that time may have passed. */
  ghost predicate Untouched(s: State, s': State, x: nat) {
    && x < |s.all| && x < |s'.all| && s'.all[x] == s.all[x] && (InTable(s', x) <==> InTable(s, x))
    && (forall l :: Own(s', x, l) <==> Own(s, x, l))
    && (forall l :: Own(s, x, l) ==> s'.launches[l] == s.launches[l])
    && (forall t :: 0 <= t < |s.timers| && s.timers[t].session == x ==> t < |s'.timers| && s'.timers[t] == s.timers[t])
    && (forall c, l: nat :: Refers(c, l) && Own(s, x, l) ==> (c in s'.cleanups <==> c in s.cleanups))
    && (InTable(s, x) ==> Claims(s', s.all[x].config.id) >= Claims(s, s.all[x].config.id))
    && s'.now >= s.now
  }

  lemma UntouchedLaunch(s: State, s': State, x: nat, l: nat)
    requires Untouched(s, s', x) && Own(s, x, l) && LaunchInv(s, x, l)
    ensures LaunchInv(s', x, l)
  {
    if AwaitsKill(s, l) {
      var c :| c in s.cleanups && c.process == Some(l);
      assert Refers(c, l) && c in s'.cleanups;
    }
    if AwaitsClose(s, l) {
      var c :| c in s.cleanups && c.client == Some(l);
      assert Refers(c, l) && c in s'.cleanups;
    }
    if AwaitsCancel(s, l) {
      var c :| c in s.cleanups && c.cancel == Some(l);
      assert Refers(c, l) && c in s'.cleanups;
    }
  }

  lemma UntouchedSession(s: State, s': State, x: nat)
    requires Untouched(s, s', x) && SessionInv(s, x)
    ensures SessionInv(s', x)
  {
    forall l | Own(s', x, l) ensures LaunchInv(s', x, l) {
      UntouchedLaunch(s, s', x, l);
    }
    assert CleanupInv(s', x);
    assert OrderInv(s', x) by {
      forall k, l | Own(s', x, k) && Own(s', x, l) && k < l ensures BackedOff(s'.launches[k], s'.launches[l]) {
        assert Own(s, x, k) && Own(s, x, l);
      }
    }
  }
}
