/**
 The session manager as an object: session records that its critical sections update in
 place, and the table that refers to them. Launches, timers and cleanups belong to the
 goroutines and the operating system; they are kept as tables. Each method is proved to take
 exactly the step of the state machine it stands for.
 */
module Manager {
  import opened Collections
  import opened ManagerModel
  import opened ManagerInvariant
  import opened ManagerProofs
  import opened ManagerShutdown

  class SessionRecord {
    const id: nat  // its address
    var config: Config
    var process: Option<nat>
    var client: Option<nat>
    var refs: nat
    var timer: Option<nat>
    var failures: nat
    var nextStart: Option<int>
    var starting: Option<nat>
    var startErr: bool
    var cancel: Option<nat>
    var stale: bool

    constructor (id: nat, cfg: Config, launch: nat)
      ensures this.id == id && Value() == NewSession(cfg, launch)
    {
      this.id, config := id, cfg;
      process, client, refs, timer, failures, nextStart := None, None, 0, None, 0, None;
      starting, startErr, cancel, stale := Some(launch), false, Some(launch), false;
    }

    function Value(): Session
      reads this
    {
      Session(config, process, client, refs, timer, failures, nextStart, starting, startErr, cancel, stale)
    }
  }

  ghost function Values(records: seq<SessionRecord>): (values: seq<Session>)
    reads records
    ensures |values| == |records| && forall i :: 0 <= i < |records| ==> values[i] == records[i].Value()
  {
    seq(|records|, i requires 0 <= i < |records| reads records => records[i].Value())
  }

  /** The table with addresses for objects. */
  function Ids(sessions: map<string, SessionRecord>): (ids: map<string, nat>)
    ensures ids.Keys == sessions.Keys && forall id :: id in sessions ==> ids[id] == sessions[id].id
  {
    map id | id in sessions :: sessions[id].id
  }

  lemma IdsPut(sessions: map<string, SessionRecord>, id: string, s: SessionRecord)
    ensures Ids(sessions[id := s]) == Ids(sessions)[id := s.id]
  {
  }

  lemma IdsWithout(sessions: map<string, SessionRecord>, id: string)
    ensures Ids(sessions - {id}) == Ids(sessions) - {id}
  {
  }

  /** What becomes of a call for a session with its configuration. */
  lemma CurrentSession(s: State, cfg: Config, x: nat)
    requires !s.closed && cfg.id in s.sessions && s.sessions[cfg.id] == x && x < |s.all|
    requires !s.all[x].stale && s.all[x].config == cfg
    ensures var session := s.all[x];
      if session.client.Some? then ClientStep(s, cfg) == Claim(s, x) && Decide(s, cfg) == Claimed
      else if session.starting.Some? then ClientStep(s, cfg) == s && Decide(s, cfg) == Wait
      else if session.nextStart.Some? && s.now < session.nextStart.value
      then ClientStep(s, cfg) == s && Decide(s, cfg) == ErrBackingOff
      else ClientStep(s, cfg) == Relaunched(s, x, cfg) && Decide(s, cfg) == Wait
  {
  }

  class Manager {
    var closed: bool
    var sessions: map<string, SessionRecord>
    var all: seq<SessionRecord>
    var launches: seq<Launch>
    var timers: seq<Timer>
    var cleanups: set<Cleanup>
    var now: int
    ghost var claims: map<string, nat>

    ghost function View(): State
      reads this, all
    {
      State(closed, Ids(sessions), Values(all), launches, timers, cleanups, now, claims)
    }

    /** A record's address is its position, and the table refers to known records. */
    ghost predicate Valid()
      reads this
    {
      && (forall i :: 0 <= i < |all| ==> all[i].id == i)
      && (forall id :: id in sessions ==> sessions[id].id < |all| && all[sessions[id].id] == sessions[id])
    }

    ghost predicate Addressed()
      reads this
    {
      forall i :: 0 <= i < |all| ==> all[i].id == i
    }

    ghost predicate Known(s: SessionRecord)
      reads this
    {
      s.id < |all| && all[s.id] == s
    }

    /** Writing to one record changes one entry of the view. */
    twostate lemma OneRecordChanged(s: SessionRecord)
      requires Addressed() && Known(s) && all == old(all)
      requires forall r :: r in all && r != s ==> unchanged(r)
      ensures Values(all) == old(Values(all))[s.id := s.Value()]
    {
      assert forall i :: 0 <= i < |all| && i != s.id ==> all[i] in all && all[i] != s;
    }

    constructor (now: int)
      ensures Valid() && View() == Initial(now) && all == []
    {
      closed, sessions, all, launches, timers, cleanups, this.now, claims := false, map[], [], [], [], {}, now, map[];
    }

    /** Whether the table still refers to this record. */
    predicate InTable(s: SessionRecord): (found: bool)
      requires Valid() && Known(s)
      reads this, all, s
      ensures found <==> ManagerModel.InTable(View(), s.id)
    {
      s.config.id in sessions && sessions[s.config.id] == s
    }

    /** Closes the client, kills the process and cancels the context of a session. */
    method DisposeOf(s: SessionRecord)
      modifies this`launches
      ensures launches == Dispose(old(launches), Cleanup(s.process, s.client, s.cancel))
    {
      launches := Dispose(launches, Cleanup(s.process, s.client, s.cancel));
    }

    method RemoveLocked(s: SessionRecord)
      requires Known(s)
      modifies this`launches, this`sessions
      ensures sessions == old(sessions) - {s.config.id}
      ensures View() == Removed(old(View()), s.id)
    {
      DisposeOf(s);
      IdsWithout(sessions, s.config.id);
      sessions := sessions - {s.config.id};
    }

    method RetireLocked(s: SessionRecord)
      requires Valid() && Known(s)
      modifies this`timers, this`launches, this`sessions
      ensures Valid() && View() == Retire(old(View()), s.id)
    {
      timers := StopTimer(timers, s.timer);
      RemoveLocked(s);
    }

    /** Hands the session's client to a caller. */
    method TakeClient(s: SessionRecord)
      requires Valid() && Known(s)
      modifies this`timers, this`claims, s`timer, s`refs
      ensures View() == Claim(old(View()), s.id)
    {
      var stopped := StopTimer(timers, s.timer);
      ghost var held := claims[s.config.id := Claims(View(), s.config.id) + 1];
      CountReference(s);
      timers, claims := stopped, held;
    }

    method CountReference(s: SessionRecord)
      requires Addressed() && Known(s)
      modifies s`timer, s`refs
      ensures Values(all) == old(Values(all))[s.id := old(s.Value()).(timer := None, refs := old(s.refs) + 1)]
    {
      s.timer, s.refs := None, s.refs + 1;
      OneRecordChanged(s);
    }

    /** One turn of the loop in Client. */
    method Client(config: Config) returns (answer: Answer)
      requires Valid()
      modifies this, all
      ensures Valid() && fresh((set s | s in all) - old(set s | s in all))
      ensures View() == Next(old(View()), ClientCall(config))
      ensures answer == Decide(old(View()), Normalize(config))
    {
      var cfg := Normalize(config);
      if closed { return ErrClosed; }
      if cfg.id !in sessions {
        Insert(cfg);
        return Wait;
      }
      var s := sessions[cfg.id];
      answer := Reuse(cfg, s);
    }

    /** The first request for a project creates its session and launches it. */
    method Insert(cfg: Config)
      requires Valid() && !closed && cfg.id !in sessions
      modifies this
      ensures Valid() && fresh((set s | s in all) - old(set s | s in all))
      ensures View() == Inserted(old(View()), cfg)
    {
      var s := AddRecord(cfg);
      Register(cfg.id, s);
      AddLaunch(s);
    }

    method AddLaunch(s: SessionRecord)
      modifies this`launches
      ensures View() == old(View()).(launches := old(launches) + [NewLaunch(old(View()), s.id)])
    {
      launches := launches + [Launch(s.id, Starting, Unspawned, Absent, false, false, now, None)];
    }

    method AddRecord(cfg: Config) returns (s: SessionRecord)
      requires Valid()
      modifies this`all
      ensures Valid() && fresh(s) && all == old(all) + [s] && s.id == |old(all)| && s.config == cfg
      ensures View() == old(View()).(all := old(View()).all + [NewSession(cfg, |launches|)])
    {
      ghost var before := Values(all);
      s := new SessionRecord(|all|, cfg, |launches|);
      all := all + [s];
      assert Values(all) == before + [s.Value()];
    }

    method Register(id: string, s: SessionRecord)
      requires Valid() && Known(s)
      modifies this`sessions
      ensures Valid() && View() == old(View()).(sessions := old(View()).sessions[id := s.id])
    {
      IdsPut(sessions, id, s);
      sessions := sessions[id := s];
    }

    /** A session with another configuration is marked, and retired if nobody uses it. */
    method Refuse(cfg: Config, s: SessionRecord) returns (answer: Answer)
      requires Valid() && !closed && cfg.id in sessions && sessions[cfg.id] == s
      requires s.stale || s.config != cfg
      modifies this`timers, this`launches, this`sessions, s`stale
      ensures Valid() && View() == ClientStep(old(View()), cfg)
      ensures answer == if s.refs != 0 then ErrChanged else Retry
    {
      s.stale := true;
      OneRecordChanged(s);
      if s.refs != 0 { return ErrChanged; }
      RetireLocked(s);
      return Retry;
    }

    method Relaunch(cfg: Config, s: SessionRecord)
      requires Addressed() && Known(s)
      modifies this`launches, s`config, s`startErr, s`starting, s`cancel
      ensures s.config == cfg && View() == Relaunched(old(View()), s.id, cfg)
    {
      s.config, s.startErr := cfg, false;
      s.starting, s.cancel := Some(|launches|), Some(|launches|);
      launches := launches + [Launch(s.id, Starting, Unspawned, Absent, false, false, now, None)];
      OneRecordChanged(s);
    }

    method Reuse(cfg: Config, s: SessionRecord) returns (answer: Answer)
      requires Valid() && !closed && cfg.id in sessions && sessions[cfg.id] == s
      modifies this`timers, this`launches, this`sessions, this`claims, s
      ensures Valid() && View() == ClientStep(old(View()), cfg)
      ensures answer == Decide(old(View()), cfg)
    {
      if s.stale || s.config != cfg {
        answer := Refuse(cfg, s);
      } else {
        answer := Use(cfg, s);
      }
    }

    /** A session with this configuration offers its client, or is starting, or starts again. */
    method Use(cfg: Config, s: SessionRecord) returns (answer: Answer)
      requires Valid() && !closed && cfg.id in sessions && sessions[cfg.id] == s && !s.stale && s.config == cfg
      modifies this`timers, this`launches, this`claims, s
      ensures Valid() && View() == ClientStep(old(View()), cfg)
      ensures answer == Decide(old(View()), cfg)
    {
      CurrentSession(View(), cfg, s.id);
      if s.client.Some? {
        TakeClient(s);
        answer := Claimed;
      } else if s.starting.Some? {
        answer := Wait;
      } else {
        answer := StartAgain(cfg, s);
      }
    }

    /** A session without a client is launched again, once its backoff has passed. */
    method StartAgain(cfg: Config, s: SessionRecord) returns (answer: Answer)
      requires Addressed() && Known(s)
      modifies this`launches, s
      ensures var wait := old(s.nextStart).Some? && now < old(s.nextStart).value;
        && View() == (if wait then old(View()) else Relaunched(old(View()), s.id, cfg))
        && answer == (if wait then ErrBackingOff else Wait)
        && s.config == (if wait then old(s.config) else cfg)
    {
      if s.nextStart.Some? && now < s.nextStart.value {
        answer := ErrBackingOff;
      } else {
        Relaunch(cfg, s);
        answer := Wait;
      }
    }

    method StartupResult(l: nat) returns (client: Option<nat>)
      requires Valid() && Enabled(View(), Step.StartupResult(l))
      modifies this`timers, this`claims, all
      ensures Valid() && View() == Next(old(View()), Step.StartupResult(l))
      ensures client == if closed || !ManagerModel.InTable(old(View()), launches[l].session) then None
                        else old(View()).all[launches[l].session].client
    {
      var s := all[launches[l].session];
      client := None;
      if !closed && InTable(s) && s.client.Some? {
        client := s.client;
        TakeClient(s);
      }
    }

    /** The process factory returns a process to the startup goroutine. */
    method Spawn(l: nat)
      requires Valid() && Enabled(View(), Step.Spawn(l))
      modifies this`launches
      ensures Valid() && View() == Next(old(View()), Step.Spawn(l))
    {
      launches := launches[l := launches[l].(phase := Spawned, process := Running)];
    }

    method PublishProcess(l: nat, s: SessionRecord)
      requires Addressed() && Known(s) && l < |launches| && launches[l].session == s.id
      modifies this`launches, s`process
      ensures View() == Published(old(View()), l)
    {
      s.process := Some(l);
      launches := launches[l := launches[l].(phase := Initializing, client := Open)];
      OneRecordChanged(s);
    }

    /** The startup goroutine publishes its process, or finds that its session is gone. */
    method Publish(l: nat)
      requires Valid() && Enabled(View(), Step.Publish(l))
      modifies this`launches, this`cleanups, all
      ensures Valid() && View() == PublishStep(old(View()), l)
    {
      var s := all[launches[l].session];
      if closed || !InTable(s) {
        DiscardProcess(l);
      } else {
        PublishProcess(l, s);
      }
    }

    /** Whoever removed the session did not know the process; it is left to a cleanup. */
    method DiscardProcess(l: nat)
      requires l < |launches|
      modifies this`launches, this`cleanups
      ensures View() == old(View()).(launches := old(launches)[l := old(launches)[l].(phase := Done)],
                                     cleanups := old(cleanups) + {Cleanup(Some(l), None, None)})
    {
      launches := launches[l := launches[l].(phase := Done)];
      cleanups := cleanups + {Cleanup(Some(l), None, None)};
    }

    /** finishStartup for a session that has left the table meanwhile. */
    method AbandonStartup(l: nat, owned: Option<nat>, s: SessionRecord)
      requires Addressed() && Known(s) && l < |launches| && launches[l].session == s.id
      modifies this`launches, this`cleanups, s`starting, s`cancel
      ensures View() == AbandonedStartup(old(View()), l, owned)
    {
      launches := Wake(launches[l := launches[l].(phase := Done)], s.starting);
      cleanups := cleanups + {Cleanup(owned, owned, s.cancel)};
      s.starting, s.cancel := None, None;
      OneRecordChanged(s);
    }

    /** finishStartup with an error. */
    method RecordFailure(l: nat, owned: Option<nat>, s: SessionRecord)
      requires Addressed() && Known(s) && l < |launches| && launches[l].session == s.id
      modifies this`launches, this`cleanups, s`failures, s`nextStart, s`startErr
      modifies s`process, s`client, s`cancel, s`starting
      ensures View() == RecordedFailure(old(View()), l, owned)
    {
      var failures := s.failures + 1;
      var woken :=
        Wake(launches[l := launches[l].(phase := Done, failure := Some(Failure(now, failures)))], s.starting);
      var cleanup := Cleanup(owned, owned, s.cancel);
      CountFailure(s, failures);
      launches, cleanups := woken, cleanups + {cleanup};
    }

    method CountFailure(s: SessionRecord, failures: nat)
      requires Addressed() && Known(s) && failures >= 1
      modifies s`failures, s`nextStart, s`startErr, s`process, s`client, s`cancel, s`starting
      ensures Values(all) == old(Values(all))[s.id := old(s.Value()).(
        failures := failures, nextStart := Some(now + Backoff(failures)), startErr := true,
        process := None, client := None, cancel := None, starting := None)]
    {
      s.failures, s.nextStart, s.startErr, s.process, s.client, s.cancel, s.starting :=
        failures, Some(now + Backoff(failures)), true, None, None, None, None;
      OneRecordChanged(s);
    }

    method FailStartup(l: nat, owned: Option<nat>)
      requires Valid() && l < |launches| && launches[l].session < |all|
      modifies this`launches, this`cleanups, all
      ensures Valid() && View() == FailStep(old(View()), l, owned)
    {
      var s := all[launches[l].session];
      if closed || !InTable(s) {
        AbandonStartup(l, owned, s);
      } else {
        RecordFailure(l, owned, s);
      }
    }

    /** finishStartup without an error, for a session still in the table. */
    method OfferClient(l: nat, s: SessionRecord)
      requires Addressed() && Known(s) && l < |launches| && launches[l].session == s.id
      modifies this`launches, this`timers, s`client, s`startErr, s`refs, s`starting, s`timer
      ensures View() == OfferedClient(old(View()), l)
    {
      var timer, armed := s.timer, timers;
      if timer.None? {
        timer, armed := Some(|timers|), timers + [Timer(s.id, Armed)];
      }
      var woken := Wake(launches[l := launches[l].(phase := Watching)], s.starting);
      OfferRecord(l, s, timer);
      timers, launches := armed, woken;
    }

    method OfferRecord(l: nat, s: SessionRecord, timer: Option<nat>)
      requires Addressed() && Known(s)
      modifies s`client, s`startErr, s`refs, s`starting, s`timer
      ensures Values(all) == old(Values(all))[s.id :=
        old(s.Value()).(client := Some(l), startErr := false, refs := 0, starting := None, timer := timer)]
    {
      s.client, s.startErr, s.refs, s.starting, s.timer := Some(l), false, 0, None, timer;
      OneRecordChanged(s);
    }

    method SucceedStartup(l: nat)
      requires Valid() && Enabled(View(), Step.StartSucceeds(l))
      modifies this`launches, this`cleanups, this`timers, all
      ensures Valid() && View() == SucceedStep(old(View()), l)
    {
      var s := all[launches[l].session];
      if closed || !InTable(s) {
        FailStartup(l, Some(l));
      } else {
        OfferClient(l, s);
      }
    }

    method ProcessExits(l: nat)
      requires Valid() && Enabled(View(), Step.ProcessExits(l))
      modifies this`launches
      ensures Valid() && View() == Next(old(View()), Step.ProcessExits(l))
    {
      launches := launches[l := launches[l].(process := Exited)];
    }

    method RecordExit(l: nat, s: SessionRecord)
      requires Addressed() && Known(s) && l < |launches| && launches[l].session == s.id
      modifies this`launches, s`client, s`process, s`cancel, s`failures, s`nextStart
      ensures View() == RecordedExit(old(View()), l)
    {
      var failures := s.failures + 1;
      var ended := Ended(launches, l, Cleanup(None, s.client, s.cancel), Failure(now, failures));
      CountExit(s, failures);
      launches := ended;
    }

    method CountExit(s: SessionRecord, failures: nat)
      requires Addressed() && Known(s) && failures >= 1
      modifies s`client, s`process, s`cancel, s`failures, s`nextStart
      ensures Values(all) == old(Values(all))[s.id := old(s.Value()).(
        client := None, process := None, cancel := None, failures := failures,
        nextStart := Some(now + Backoff(failures)))]
    {
      s.client, s.process, s.cancel, s.failures, s.nextStart :=
        None, None, None, failures, Some(now + Backoff(failures));
      OneRecordChanged(s);
    }

    /** The goroutine is over; nothing else changes. */
    method MarkDone(l: nat)
      requires l < |launches|
      modifies this`launches
      ensures View() == SetPhase(old(View()), l, Done)
    {
      launches := launches[l := launches[l].(phase := Done)];
    }

    /** The watch goroutine has seen its process exit. */
    method Watch(l: nat)
      requires Valid() && Enabled(View(), Step.WatchReturns(l))
      modifies this`launches, all
      ensures Valid() && View() == WatchStep(old(View()), l)
    {
      var s := all[launches[l].session];
      if !InTable(s) {
        MarkDone(l);
      } else {
        RecordExit(l, s);
      }
    }

    method Unreference(s: SessionRecord)
      requires Addressed() && Known(s) && s.refs > 0
      modifies s`refs
      ensures View() == SetSession(old(View()), s.id, old(s.Value()).(refs := old(s.refs) - 1))
    {
      s.refs := s.refs - 1;
      OneRecordChanged(s);
    }

    method UnreferenceLast(s: SessionRecord)
      requires Addressed() && Known(s) && s.refs == 1
      modifies this`timers, s`refs, s`timer
      ensures View() == ScheduleIdle(old(View()), s.id, old(s.Value()).(refs := 0))
    {
      s.refs := 0;
      if s.timer.None? {
        s.timer, timers := Some(|timers|), timers + [Timer(s.id, Armed)];
      }
      OneRecordChanged(s);
    }

    method Drop(s: SessionRecord)
      requires Valid() && Known(s) && s.refs > 0
      modifies this`timers, this`launches, this`sessions, s`refs, s`timer
      ensures Valid() && View() == Dropped(old(View()), s.id)
    {
      if s.refs > 1 {
        Unreference(s);
      } else if s.stale {
        DropStale(s);
      } else {
        UnreferenceLast(s);
      }
    }

    method DropStale(s: SessionRecord)
      requires Valid() && Known(s) && s.refs > 0
      modifies this`timers, this`launches, this`sessions, s`refs
      ensures Valid()
      ensures View() == Retire(SetSession(old(View()), s.id, old(s.Value()).(refs := old(s.refs) - 1)), s.id)
    {
      Unreference(s);
      RetireLocked(s);
    }

    method Release(id: string)
      requires Valid()
      modifies this`claims, this`timers, this`launches, this`sessions, all
      ensures Valid() && View() == ReleaseStep(old(View()), id)
    {
      claims := if id in claims && claims[id] > 0 then claims[id := claims[id] - 1] else claims;
      assert View() == Returned(old(View()), id);
      if id in sessions && sessions[id].refs != 0 {
        Drop(sessions[id]);
      }
    }

    method Invalidate(id: string)
      requires Valid()
      modifies this`timers, this`launches, this`sessions, all
      ensures Valid() && View() == InvalidateStep(old(View()), id)
    {
      if id in sessions {
        var s := sessions[id];
        s.stale := true;
        OneRecordChanged(s);
        if s.refs == 0 {
          RetireLocked(s);
        }
      }
    }

    method TimerFires(t: nat)
      requires Valid() && Enabled(View(), Step.TimerFires(t))
      modifies this`timers
      ensures Valid() && View() == Next(old(View()), Step.TimerFires(t))
    {
      timers := timers[t := timers[t].(status := Fired)];
    }

    /** The idle timer's callback. */
    method Stop(t: nat)
      requires Valid() && Enabled(View(), IdleStop(t))
      modifies this`timers, this`launches, this`sessions
      ensures Valid() && View() == IdleStep(old(View()), t)
    {
      var s := all[timers[t].session];
      timers := timers[t := timers[t].(status := Over)];
      RemoveIdle(s);
    }

    method RemoveIdle(s: SessionRecord)
      requires Valid() && Known(s)
      modifies this`launches, this`sessions
      ensures Valid()
      ensures View() == if ManagerModel.InTable(old(View()), s.id) && old(View()).all[s.id].refs == 0
                        then Removed(old(View()), s.id) else old(View())
    {
      if InTable(s) && s.refs == 0 {
        RemoveLocked(s);
      }
    }

    method EmptySession(s: SessionRecord)
      requires Addressed() && Known(s)
      modifies this`timers, this`launches, this`cleanups, s`starting, s`process, s`client, s`cancel
      ensures View() == old(View()).(
        all := old(View()).all[s.id :=
          old(s.Value()).(starting := None, process := None, client := None, cancel := None)],
        launches := Wake(old(launches), old(s.starting)),
        timers := StopTimer(old(timers), s.timer),
        cleanups := old(cleanups) + {Cleanup(old(s.process), old(s.client), old(s.cancel))})
    {
      var starting, cleanup := s.starting, Cleanup(s.process, s.client, s.cancel);
      ClearRecord(s);
      timers := StopTimer(timers, s.timer);
      launches := Wake(launches, starting);
      cleanups := cleanups + {cleanup};
    }

    method ClearRecord(s: SessionRecord)
      requires Addressed() && Known(s)
      modifies s`starting, s`process, s`client, s`cancel
      ensures View() == SetSession(old(View()), s.id,
                                   old(s.Value()).(starting := None, process := None, client := None, cancel := None))
    {
      s.starting, s.process, s.client, s.cancel := None, None, None, None;
      OneRecordChanged(s);
    }

    method EmptyNext(id: string, s: SessionRecord, ghost before: State, ghost remaining: set<string>)
      requires Addressed() && Known(s) && Inv(before) && View() == PartlyClosed(before, remaining)
      requires id in remaining && id in before.sessions && before.sessions[id] == s.id
      modifies this`timers, this`launches, this`cleanups, s`starting, s`process, s`client, s`cancel
      ensures View() == PartlyClosed(before, remaining - {id})
    {
      EmptiesOne(before, remaining, id);
      EmptySession(s);
    }

    method Close()
      requires Valid() && Inv(View())
      modifies this, all
      ensures Valid() && all == old(all) && View() == CloseStep(old(View()))
    {
      if !closed {
        ghost var before := View();
        var ss := sessions;
        closed, sessions := true, map[];
        var remaining := ss.Keys;
        CloseBegins(before);
        while remaining != {}
          invariant all == old(all) && Addressed() && sessions == map[] && remaining <= ss.Keys
          invariant View() == PartlyClosed(before, remaining)
          decreases remaining
        {
          var id :| id in remaining;
          EmptyNext(id, ss[id], before, remaining);
          remaining := remaining - {id};
        }
        CloseEnds(before);
      }
    }

    method RunCleanup(c: Cleanup)
      requires Valid() && Enabled(View(), Step.RunCleanup(c))
      modifies this`launches, this`cleanups
      ensures Valid() && View() == Next(old(View()), Step.RunCleanup(c))
    {
      launches, cleanups := Dispose(launches, c), cleanups - {c};
    }

    method Tick(elapsed: nat)
      requires Valid()
      modifies this`now
      ensures Valid() && View() == Next(old(View()), Step.Tick(elapsed))
    {
      now := now + elapsed;
    }
  }

  /** Any schedule of the methods drives the object through the corresponding run of the machine. */
  method Drive(m: Manager, steps: seq<Step>)
    requires m.Valid() && Inv(m.View())
    modifies m, m.all
    ensures m.Valid() && m.View() == Exec(old(m.View()), steps)
  {
    var i := 0;
    while i < |steps|
      invariant 0 <= i <= |steps| && m.Valid()
      invariant fresh((set s | s in m.all) - old(set s | s in m.all))
      invariant m.View() == Exec(old(m.View()), steps[..i])
    {
      ghost var before := old(m.View());
      ExecKeepsInv(before, steps[..i]);
      ExecConcat(before, steps[..i], [steps[i]]);
      assert steps[..i + 1] == steps[..i] + [steps[i]];
      assert Exec(m.View(), [steps[i]]) == Exec(Next(m.View(), steps[i]), []);
      Take(m, steps[i]);
      i := i + 1;
    }
    assert steps[..i] == steps;
  }

  predicate IsCaller(step: Step) {
    step.ClientCall? || step.Release? || step.Invalidate? || step.Close? || step.Tick?
  }

  /** The method for one step, when it is enabled. */
  method Take(m: Manager, step: Step)
    requires m.Valid() && Inv(m.View())
    modifies m, m.all
    ensures m.Valid() && fresh((set s | s in m.all) - old(set s | s in m.all))
    ensures m.View() == Next(old(m.View()), step)
  {
    if IsCaller(step) { TakeCall(m, step); } else { TakeEvent(m, step); }
  }

  method TakeCall(m: Manager, step: Step)
    requires m.Valid() && Inv(m.View()) && IsCaller(step)
    modifies m, m.all
    ensures m.Valid() && fresh((set s | s in m.all) - old(set s | s in m.all))
    ensures m.View() == Next(old(m.View()), step)
  {
    match step
    case ClientCall(cfg) => var _ := m.Client(cfg);
    case Release(id) => m.Release(id);
    case Invalidate(id) => m.Invalidate(id);
    case Close => m.Close();
    case Tick(d) => m.Tick(d);
  }

  predicate IsStartup(step: Step) {
    step.StartupResult? || step.Spawn? || step.LaunchFails? || step.Publish? || step.StartSucceeds? || step.StartFails?
  }

  method TakeEvent(m: Manager, step: Step)
    requires m.Valid() && Inv(m.View()) && !IsCaller(step)
    modifies m, m.all
    ensures m.Valid() && m.all == old(m.all)
    ensures m.View() == Next(old(m.View()), step)
  {
    if IsStartup(step) { TakeStartup(m, step); } else { TakeOutside(m, step); }
  }

  method TakeStartup(m: Manager, step: Step)
    requires m.Valid() && Inv(m.View()) && IsStartup(step)
    modifies m, m.all
    ensures m.Valid() && m.all == old(m.all)
    ensures m.View() == Next(old(m.View()), step)
  {
    match step
    case StartupResult(l) =>
      if l < |m.launches| && m.launches[l].woken { var _ := m.StartupResult(l); }
    case Spawn(l) =>
      if l < |m.launches| && m.launches[l].phase == Starting { m.Spawn(l); }
    case LaunchFails(l) =>
      if l < |m.launches| && m.launches[l].phase == Starting { m.FailStartup(l, None); }
    case Publish(l) =>
      if l < |m.launches| && m.launches[l].phase == Spawned { m.Publish(l); }
    case StartSucceeds(l) =>
      if l < |m.launches| && m.launches[l].phase == Initializing { m.SucceedStartup(l); }
    case StartFails(l) =>
      if l < |m.launches| && m.launches[l].phase == Initializing { m.FailStartup(l, Some(l)); }
  }

  method TakeOutside(m: Manager, step: Step)
    requires m.Valid() && Inv(m.View()) && !IsCaller(step) && !IsStartup(step)
    modifies m, m.all
    ensures m.Valid() && m.all == old(m.all)
    ensures m.View() == Next(old(m.View()), step)
  {
    match step
    case ProcessExits(l) =>
      if l < |m.launches| && (m.launches[l].process == Running || m.launches[l].process == Killed) {
        m.ProcessExits(l);
      }
    case WatchReturns(l) =>
      if l < |m.launches| && m.launches[l].phase == Watching && m.launches[l].process == Exited { m.Watch(l); }
    case TimerFires(t) =>
      if t < |m.timers| && m.timers[t].status == Armed { m.TimerFires(t); }
    case IdleStop(t) =>
      if t < |m.timers| && m.timers[t].status == Fired { m.Stop(t); }
    case RunCleanup(c) =>
      if c in m.cleanups { m.RunCleanup(c); }
  }
}
