/**
 The clangd session manager as a state machine. One `Step` is one critical section of the
 manager, one action of a startup or watch goroutine outside the lock, or one event of the
 outside world (a process exits, a timer fires, time passes).
 */
module ManagerModel {
  import opened Collections

  datatype Config = Config(
    id: string, clangd: string, database: string, cacheDir: string, rootUri: string,
    threads: int, idleTimeout: int, graceTimeout: int)

  const SECOND := 1_000_000_000
  const DEFAULT_IDLE := 5 * 60 * SECOND

  function Normalize(cfg: Config): Config {
    cfg.(threads := if cfg.threads < 1 then 1 else cfg.threads,
         idleTimeout := if cfg.idleTimeout <= 0 then DEFAULT_IDLE else cfg.idleTimeout)
  }

  // ----- what one launch of clangd owns -----

  // Starting: the startup goroutine has not spawned a process yet. Spawned: it holds one
  // that it has not published. Initializing: published. Watching: the startup succeeded and
  // the watch goroutine waits for the process to exit. Done: no goroutine is left.
  datatype Phase = Starting | Spawned | Initializing | Watching | Done
  datatype Process = Unspawned | Running | Killed | Exited
  datatype Client = Absent | Open | Shut
  datatype Failure = Failure(at: int, count: nat)

  // One launch stands for its context, its startup channel (closed when `woken`), its
  // process, the client on that process, and the goroutine working for it. `startedAt`
  // and `failure` are history.
  datatype Launch = Launch(
    session: nat, phase: Phase, process: Process, client: Client, canceled: bool, woken: bool,
    startedAt: int, failure: Option<Failure>)
  {
    predicate InFlight() { phase == Starting || phase == Spawned || phase == Initializing }
  }

  datatype TimerStatus = Armed | Fired | Over
  datatype Timer = Timer(session: nat, status: TimerStatus)

  // References to a process, a client, a context or a channel are launch numbers.
  datatype Session = Session(
    config: Config, process: Option<nat>, client: Option<nat>, refs: nat, timer: Option<nat>,
    failures: nat, nextStart: Option<int>, starting: Option<nat>, startErr: bool,
    cancel: Option<nat>, stale: bool)

  // What a goroutine has taken out of the lock to dispose of.
  datatype Cleanup = Cleanup(process: Option<nat>, client: Option<nat>, cancel: Option<nat>)

  // A session is named by its position in `all`, which stands for its address. `claims`
  // is history: per project, the clients handed out and not yet released.
  datatype State = State(
    closed: bool,
    sessions: map<string, nat>,
    all: seq<Session>,
    launches: seq<Launch>,
    timers: seq<Timer>,
    cleanups: set<Cleanup>,
    now: int,
    claims: map<string, nat>)

  datatype Step =
    | ClientCall(cfg: Config)
    | StartupResult(launch: nat)
    | Spawn(launch: nat)
    | LaunchFails(launch: nat)
    | Publish(launch: nat)
    | StartSucceeds(launch: nat)
    | StartFails(launch: nat)
    | ProcessExits(launch: nat)
    | WatchReturns(launch: nat)
    | Release(id: string)
    | Invalidate(id: string)
    | TimerFires(timer: nat)
    | IdleStop(timer: nat)
    | Close
    | RunCleanup(cleanup: Cleanup)
    | Tick(elapsed: nat)

  function Initial(now: int): State {
    State(false, map[], [], [], [], {}, now, map[])
  }

  predicate InTable(s: State, x: int) {
    0 <= x < |s.all| && s.all[x].config.id in s.sessions && s.sessions[s.all[x].config.id] == x
  }

  function Claims(s: State, id: string): nat {
    if id in s.claims then s.claims[id] else 0
  }

  predicate InPhase(s: State, l: nat, phase: Phase) {
    l < |s.launches| && s.launches[l].phase == phase && s.launches[l].session < |s.all|
  }

  predicate Enabled(s: State, step: Step) {
    match step
    case StartupResult(l) => l < |s.launches| && s.launches[l].woken && s.launches[l].session < |s.all|
    case Spawn(l) => InPhase(s, l, Starting)
    case LaunchFails(l) => InPhase(s, l, Starting)
    case Publish(l) => InPhase(s, l, Spawned)
    case StartSucceeds(l) => InPhase(s, l, Initializing)
    case StartFails(l) => InPhase(s, l, Initializing)
    case ProcessExits(l) => l < |s.launches| && (s.launches[l].process == Running || s.launches[l].process == Killed)
    case WatchReturns(l) => InPhase(s, l, Watching) && s.launches[l].process == Exited
    case TimerFires(t) => t < |s.timers| && s.timers[t].status == Armed
    case IdleStop(t) => t < |s.timers| && s.timers[t].status == Fired && s.timers[t].session < |s.all|
    case RunCleanup(c) => c in s.cleanups
    case _ => true
  }

  // ----- parts of the steps -----

  /** Kill the process, close the client and cancel the context that are referred to, if any. */
  function Disposed(launch: Launch, l: nat, c: Cleanup): Launch {
    launch.(
      process := if c.process == Some(l) && launch.process == Running then Killed else launch.process,
      client := if c.client == Some(l) && launch.client == Open then Shut else launch.client,
      canceled := launch.canceled || c.cancel == Some(l))
  }

  function Dispose(launches: seq<Launch>, c: Cleanup): (r: seq<Launch>)
    ensures |r| == |launches|
    ensures forall l :: 0 <= l < |r| ==> r[l] == Disposed(launches[l], l, c)
  {
    seq(|launches|, l requires 0 <= l < |launches| => Disposed(launches[l], l, c))
  }

  function StopTimer(timers: seq<Timer>, timer: Option<nat>): (r: seq<Timer>)
    ensures |r| == |timers|
    ensures forall t :: 0 <= t < |r| && timer != Some(t) ==> r[t] == timers[t]
    ensures forall t :: 0 <= t < |r| ==> r[t].session == timers[t].session
  {
    if timer.Some? && timer.value < |timers| && timers[timer.value].status == Armed
    then timers[timer.value := timers[timer.value].(status := Over)]
    else timers
  }

  /** Closes the startup channel, if the session still has one. */
  function Wake(launches: seq<Launch>, starting: Option<nat>): (r: seq<Launch>)
    ensures |r| == |launches|
    ensures forall l :: 0 <= l < |r| ==>
      r[l] == if starting == Some(l) then launches[l].(woken := true) else launches[l]
  {
    if starting.Some? && starting.value < |launches|
    then launches[starting.value := launches[starting.value].(woken := true)]
    else launches
  }

  /** What a session holds. */
  function Held(s: State, x: nat): Cleanup
    requires x < |s.all|
  {
    Cleanup(s.all[x].process, s.all[x].client, s.all[x].cancel)
  }

  /** Takes a session out of the table and disposes of all it holds. */
  function Removed(s: State, x: nat): State
    requires x < |s.all|
  {
    s.(launches := Dispose(s.launches, Held(s, x)), sessions := s.sessions - {s.all[x].config.id})
  }

  function Retire(s: State, x: nat): State
    requires x < |s.all|
  {
    Removed(s, x).(timers := StopTimer(s.timers, s.all[x].timer))
  }

  function SetSession(s: State, x: nat, session: Session): State
    requires x < |s.all|
  {
    s.(all := s.all[x := session])
  }

  function SetPhase(s: State, l: nat, phase: Phase): State
    requires l < |s.launches|
  {
    s.(launches := s.launches[l := s.launches[l].(phase := phase)])
  }

  /** Hands the client to a caller: the idle timer is stopped and the reference counted. */
  function Claim(s: State, x: nat): State
    requires x < |s.all|
  {
    var session := s.all[x];
    var id := session.config.id;
    s.(timers := StopTimer(s.timers, session.timer),
       all := s.all[x := session.(timer := None, refs := session.refs + 1)],
       claims := s.claims[id := Claims(s, id) + 1])
  }

  /** Writes a session back, with its idle timer armed unless it already has one. */
  function ScheduleIdle(s: State, x: nat, session: Session): State
    requires x < |s.all|
  {
    if session.timer.Some? then SetSession(s, x, session)
    else
      s.(all := s.all[x := session.(timer := Some(|s.timers|))],
         timers := s.timers + [Timer(x, Armed)])
  }

  /** The wait before the next start, after this many failures: 1, 2, 4, 8 and then 16 seconds. */
  function Backoff(failures: nat): int
    requires failures >= 1
  {
    var f := if failures > 5 then 5 else failures;
    SECOND * (if f == 1 then 1 else if f == 2 then 2 else if f == 3 then 4 else if f == 4 then 8 else 16)
  }

  function NewLaunch(s: State, x: nat): Launch {
    Launch(x, Starting, Unspawned, Absent, false, false, s.now, None)
  }

  function NewSession(cfg: Config, l: nat): Session {
    Session(cfg, None, None, 0, None, 0, None, Some(l), false, Some(l), false)
  }

  // ----- the steps -----

  datatype Answer = ErrClosed | ErrChanged | Retry | Claimed | Wait | ErrBackingOff

  /** Which way a call of Client goes; one turn of its loop. */
  function Decide(s: State, cfg: Config): Answer {
    if s.closed then ErrClosed
    else if cfg.id in s.sessions && s.sessions[cfg.id] < |s.all| then
      var session := s.all[s.sessions[cfg.id]];
      if session.stale || session.config != cfg then
        if session.refs != 0 then ErrChanged else Retry
      else if session.client.Some? then Claimed
      else if session.starting.Some? then Wait
      else if session.nextStart.Some? && s.now < session.nextStart.value then ErrBackingOff
      else Wait
    else Wait
  }

  /** The first request for a project creates its session and launches it. */
  function Inserted(s: State, cfg: Config): State {
    s.(sessions := s.sessions[cfg.id := |s.all|],
       all := s.all + [NewSession(cfg, |s.launches|)],
       launches := s.launches + [NewLaunch(s, |s.all|)])
  }

  /** A session without a client or a startup gets a new launch. */
  function Relaunched(s: State, x: nat, cfg: Config): State
    requires x < |s.all|
  {
    s.(all := s.all[x := s.all[x].(config := cfg, startErr := false,
         starting := Some(|s.launches|), cancel := Some(|s.launches|))],
       launches := s.launches + [NewLaunch(s, x)])
  }

  function ClientStep(s: State, cfg: Config): State {
    if s.closed then s
    else if cfg.id in s.sessions && s.sessions[cfg.id] < |s.all| then
      var x := s.sessions[cfg.id];
      var session := s.all[x];
      if session.stale || session.config != cfg then
        var marked := SetSession(s, x, session.(stale := true));
        if session.refs != 0 then marked else Retire(marked, x)
      else if session.client.Some? then Claim(s, x)
      else if session.starting.Some? then s
      else if session.nextStart.Some? && s.now < session.nextStart.value then s
      else Relaunched(s, x, cfg)
    else Inserted(s, cfg)
  }

  function ResultStep(s: State, l: nat): State
    requires Enabled(s, StartupResult(l))
  {
    var x := s.launches[l].session;
    if s.closed || !InTable(s, x) || s.all[x].client.None? then s else Claim(s, x)
  }

  /** The session learns its process, on which a client is opened. */
  function Published(s: State, l: nat): State
    requires l < |s.launches| && s.launches[l].session < |s.all|
  {
    s.(all := s.all[s.launches[l].session := s.all[s.launches[l].session].(process := Some(l))],
       launches := s.launches[l := s.launches[l].(phase := Initializing, client := Open)])
  }

  function PublishStep(s: State, l: nat): State
    requires Enabled(s, Publish(l))
  {
    var x := s.launches[l].session;
    if s.closed || !InTable(s, x) then
      SetPhase(s, l, Done).(cleanups := s.cleanups + {Cleanup(Some(l), None, None)})
    else
      Published(s, l)
  }

  /** A startup that finds its session gone wakes the waiters and takes over the context. */
  function AbandonedStartup(s: State, l: nat, owned: Option<nat>): State
    requires l < |s.launches| && s.launches[l].session < |s.all|
  {
    var session := s.all[s.launches[l].session];
    s.(all := s.all[s.launches[l].session := session.(starting := None, cancel := None)],
       launches := Wake(s.launches[l := s.launches[l].(phase := Done)], session.starting),
       cleanups := s.cleanups + {Cleanup(owned, owned, session.cancel)})
  }

  /** A startup that fails also counts the failure and sets the time of the next start. */
  function RecordedFailure(s: State, l: nat, owned: Option<nat>): State
    requires l < |s.launches| && s.launches[l].session < |s.all|
  {
    var session := s.all[s.launches[l].session];
    var failures := session.failures + 1;
    s.(all := s.all[s.launches[l].session := session.(
         failures := failures, nextStart := Some(s.now + Backoff(failures)), startErr := true,
         process := None, client := None, cancel := None, starting := None)],
       launches := Wake(
         s.launches[l := s.launches[l].(phase := Done, failure := Some(Failure(s.now, failures)))], session.starting),
       cleanups := s.cleanups + {Cleanup(owned, owned, session.cancel)})
  }

  /** The failing ways out of a startup; `owned` is the launch if it already has a process and a client. */
  function FailStep(s: State, l: nat, owned: Option<nat>): State
    requires l < |s.launches| && s.launches[l].session < |s.all|
  {
    if s.closed || !InTable(s, s.launches[l].session) then AbandonedStartup(s, l, owned)
    else RecordedFailure(s, l, owned)
  }

  /** A startup that succeeds offers its client, with no references yet and the idle timer armed. */
  function OfferedClient(s: State, l: nat): State
    requires l < |s.launches| && s.launches[l].session < |s.all|
  {
    var x := s.launches[l].session;
    var session := s.all[x];
    ScheduleIdle(s, x, session.(client := Some(l), startErr := false, refs := 0, starting := None))
      .(launches := Wake(s.launches[l := s.launches[l].(phase := Watching)], session.starting))
  }

  function SucceedStep(s: State, l: nat): State
    requires Enabled(s, StartSucceeds(l))
  {
    if s.closed || !InTable(s, s.launches[l].session) then FailStep(s, l, Some(l)) else OfferedClient(s, l)
  }

  /** What the session held is disposed of, and its launch is over with a failure. */
  function Ended(launches: seq<Launch>, l: nat, c: Cleanup, failure: Failure): seq<Launch>
    requires l < |launches|
  {
    var disposed := Dispose(launches, c);
    disposed[l := disposed[l].(phase := Done, failure := Some(failure))]
  }

  /** The process of a session in the table has exited under its client. */
  function RecordedExit(s: State, l: nat): State
    requires l < |s.launches| && s.launches[l].session < |s.all|
  {
    var session := s.all[s.launches[l].session];
    var failures := session.failures + 1;
    s.(all := s.all[s.launches[l].session := session.(
         client := None, process := None, cancel := None,
         failures := failures, nextStart := Some(s.now + Backoff(failures)))],
       launches := Ended(s.launches, l, Cleanup(None, session.client, session.cancel), Failure(s.now, failures)))
  }

  function WatchStep(s: State, l: nat): State
    requires Enabled(s, WatchReturns(l))
  {
    if !InTable(s, s.launches[l].session) then SetPhase(s, l, Done) else RecordedExit(s, l)
  }

  /** One reference less; the last one retires a stale session and arms another one's idle timer. */
  function Dropped(s: State, x: nat): State
    requires x < |s.all| && s.all[x].refs > 0
  {
    var released := s.all[x].(refs := s.all[x].refs - 1);
    if released.refs > 0 then SetSession(s, x, released)
    else if released.stale then Retire(SetSession(s, x, released), x)
    else ScheduleIdle(s, x, released)
  }

  /** The caller no longer holds a client. */
  function Returned(s: State, id: string): State {
    s.(claims := if Claims(s, id) > 0 then s.claims[id := Claims(s, id) - 1] else s.claims)
  }

  function ReleaseStep(s: State, id: string): State {
    if id !in s.sessions || s.sessions[id] >= |s.all| || s.all[s.sessions[id]].refs == 0 then Returned(s, id)
    else Dropped(Returned(s, id), s.sessions[id])
  }

  function InvalidateStep(s: State, id: string): State {
    if id !in s.sessions || s.sessions[id] >= |s.all| then s
    else
      var x := s.sessions[id];
      var marked := SetSession(s, x, s.all[x].(stale := true));
      if s.all[x].refs == 0 then Retire(marked, x) else marked
  }

  /** The idle timer's callback. It neither stops the timer nor looks at its client's state. */
  function IdleStep(s: State, t: nat): State
    requires Enabled(s, IdleStop(t))
  {
    var x := s.timers[t].session;
    var ran := s.(timers := s.timers[t := s.timers[t].(status := Over)]);
    if !InTable(s, x) || s.all[x].refs != 0 then ran
    else
      Removed(ran, x)
  }

  function Emptied(s: State, x: nat): Session
    requires x < |s.all|
  {
    if InTable(s, x) then s.all[x].(starting := None, process := None, client := None, cancel := None)
    else s.all[x]
  }

  function Awakened(s: State, l: nat): Launch
    requires l < |s.launches|
  {
    var launch := s.launches[l];
    if InTable(s, launch.session) && s.all[launch.session].starting == Some(l) then launch.(woken := true) else launch
  }

  function Stopped(s: State, t: nat): Timer
    requires t < |s.timers|
  {
    var timer := s.timers[t];
    if timer.status == Armed && InTable(s, timer.session) && s.all[timer.session].timer == Some(t)
    then timer.(status := Over) else timer
  }

  function CloseStep(s: State): State {
    if s.closed then s
    else
      s.(closed := true, sessions := map[],
         all := seq(|s.all|, x requires 0 <= x < |s.all| => Emptied(s, x)),
         launches := seq(|s.launches|, l requires 0 <= l < |s.launches| => Awakened(s, l)),
         timers := seq(|s.timers|, t requires 0 <= t < |s.timers| => Stopped(s, t)),
         cleanups := s.cleanups + (set x | 0 <= x < |s.all| && InTable(s, x) :: Held(s, x)))
  }

  function Next(s: State, step: Step): State {
    if !Enabled(s, step) then s else
    match step
    case ClientCall(cfg) => ClientStep(s, Normalize(cfg))
    case StartupResult(l) => ResultStep(s, l)
    case Spawn(l) => s.(launches := s.launches[l := s.launches[l].(phase := Spawned, process := Running)])
    case LaunchFails(l) => FailStep(s, l, None)
    case Publish(l) => PublishStep(s, l)
    case StartSucceeds(l) => SucceedStep(s, l)
    case StartFails(l) => FailStep(s, l, Some(l))
    case ProcessExits(l) => s.(launches := s.launches[l := s.launches[l].(process := Exited)])
    case WatchReturns(l) => WatchStep(s, l)
    case Release(id) => ReleaseStep(s, id)
    case Invalidate(id) => InvalidateStep(s, id)
    case TimerFires(t) => s.(timers := s.timers[t := s.timers[t].(status := Fired)])
    case IdleStop(t) => IdleStep(s, t)
    case Close => CloseStep(s)
    case RunCleanup(c) => s.(launches := Dispose(s.launches, c), cleanups := s.cleanups - {c})
    case Tick(d) => s.(now := s.now + d)
  }

  function Exec(s: State, steps: seq<Step>): State
    decreases |steps|
  {
    if steps == [] then s else Exec(Next(s, steps[0]), steps[1..])
  }

  lemma {:induction false} ExecConcat(s: State, first: seq<Step>, second: seq<Step>)
    ensures Exec(s, first + second) == Exec(Exec(s, first), second)
    decreases |first|
  {
    if first == [] {
      assert first + second == second;
    } else {
      assert (first + second)[1..] == first[1..] + second;
      ExecConcat(Next(s, first[0]), first[1..], second);
    }
  }
}
