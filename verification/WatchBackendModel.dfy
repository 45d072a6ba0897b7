/**
 The Windows root-watch backend as a state machine: watches against overlapped reads
 and a completion port. The kernel completes reads at any time and in any order, and
 CancelIoEx, ReadDirectoryChanges and the packets may have any outcome.
 */
module WatchBackendModel {
  import opened Collections

  datatype WatchState = Active | Canceling | Closed

  // `pending` and `packets` count the reads in the kernel and the completions queued on the port;
  // `handleCloses` and `stops` count the calls that close the handle and the channel.
  datatype Watch = Watch(
    root: string, recursive: bool, state: WatchState, pending: nat, packets: nat, handleCloses: nat, stops: nat)
  {
    function Outstanding(): nat { pending + packets }
  }

  datatype AddOutcome = OpenFails | ReadFails | Armed
  datatype CancelOutcome = Canceled | NotFound | CancelFails
  datatype Packet = Completed | Aborted | MoreData | Failed

  // A watch is named by its position in `all`, which stands for its address. `closing`
  // holds the roots that a running Close has still to remove.
  datatype State = State(
    watches: map<string, nat>,
    all: seq<Watch>,
    closing: Option<set<string>>,
    closed: bool,
    reading: bool)

  datatype Step =
    | Add(root: string, recursive: bool, outcome: AddOutcome)
    | RequestRemove(root: string, cancel: CancelOutcome)
    | Complete(watch: nat)
    | Drain(watch: nat, packet: Packet, rearmed: bool)
    | BeginClose
    | CloseRemoved(root: string)
    | AbortClose
    | EndClose
    | ReaderExits

  const Initial := State(map[], [], None, false, true)

  predicate Enabled(s: State, step: Step) {
    match step
    case Add(_, _, _) => s.closing.None? && !s.closed
    case RequestRemove(_, _) => true
    case Complete(w) => w < |s.all| && s.all[w].pending > 0
    case Drain(w, _, _) => s.reading && w < |s.all| && s.all[w].packets > 0
    case BeginClose => s.closing.None? && !s.closed
    case CloseRemoved(root) => s.closing.Some? && RemoveReturned(s, root)
    case AbortClose => s.closing.Some?
    case EndClose => s.closing == Some({})
    case ReaderExits => s.closed
  }

  /** Remove returns without error once the root has no watch, or its watch has stopped. */
  predicate RemoveReturned(s: State, root: string) {
    root !in s.watches || (s.watches[root] < |s.all| && s.all[s.watches[root]].stops > 0)
  }

  function Finish(s: State, w: nat): State
    requires w < |s.all|
  {
    var watch := s.all[w];
    if watch.state == Closed then s
    else
      s.(watches := s.watches - {watch.root},
         all := s.all[w := watch.(state := Closed, handleCloses := watch.handleCloses + 1, stops := watch.stops + 1)])
  }

  function AddStep(s: State, root: string, recursive: bool, outcome: AddOutcome): State {
    if root in s.watches && s.watches[root] < |s.all| && s.all[s.watches[root]].state != Closed then s
    else
      match outcome
      case OpenFails => s
      case ReadFails =>
        s.(watches := s.watches - {root}, all := s.all + [Watch(root, recursive, Active, 0, 0, 1, 0)])
      case Armed =>
        s.(watches := s.watches[root := |s.all|], all := s.all + [Watch(root, recursive, Active, 1, 0, 0, 0)])
  }

  function RemoveStep(s: State, root: string, cancel: CancelOutcome): State {
    if root !in s.watches || s.watches[root] >= |s.all| then s
    else
      var w := s.watches[root];
      if s.all[w].state == Active && cancel != CancelFails
      then s.(all := s.all[w := s.all[w].(state := Canceling)]) else s
  }

  /** The kernel completes a read: its packet is queued on the port. */
  function Completion(watch: Watch): Watch
    requires watch.pending > 0
  {
    watch.(pending := watch.pending - 1, packets := watch.packets + 1)
  }

  /** The reader takes a packet of a watch off the port. */
  function Consume(s: State, w: nat): State
    requires w < |s.all| && s.all[w].packets > 0
  {
    s.(all := s.all[w := s.all[w].(packets := s.all[w].packets - 1)])
  }

  /** The next read of a watch is started. */
  function Rearm(s: State, w: nat): State
    requires w < |s.all|
  {
    s.(all := s.all[w := s.all[w].(pending := s.all[w].pending + 1)])
  }

  function DrainStep(s: State, w: nat, packet: Packet, rearmed: bool): State
    requires w < |s.all| && s.all[w].packets > 0
  {
    var s' := Consume(s, w);
    if s.all[w].state == Canceling || packet != Completed then Finish(s', w)
    else if s.all[w].state == Active then if rearmed then Rearm(s', w) else Finish(s', w)
    else s'
  }

  function Next(s: State, step: Step): State {
    if !Enabled(s, step) then s else
    match step
    case Add(root, recursive, outcome) => AddStep(s, root, recursive, outcome)
    case RequestRemove(root, cancel) => RemoveStep(s, root, cancel)
    case Complete(w) => s.(all := s.all[w := Completion(s.all[w])])
    case Drain(w, packet, rearmed) => DrainStep(s, w, packet, rearmed)
    case BeginClose => s.(closing := Some(s.watches.Keys))
    case CloseRemoved(root) => s.(closing := Some(s.closing.value - {root}))
    case AbortClose => s.(closing := None)
    case EndClose => s.(closing := None, closed := true)
    case ReaderExits => s.(reading := false)
  }

  function Exec(s: State, steps: seq<Step>): State
    decreases |steps|
  {
    if steps == [] then s else Exec(Next(s, steps[0]), steps[1..])
  }

  lemma {:induction false} ExecAppend(s: State, steps: seq<Step>, step: Step)
    ensures Exec(s, steps + [step]) == Next(Exec(s, steps), step)
    decreases |steps|
  {
    if steps == [] {
      assert Exec(Next(s, step), []) == Next(s, step);
    } else {
      assert (steps + [step])[1..] == steps[1..] + [step];
      ExecAppend(Next(s, steps[0]), steps[1..], step);
    }
  }

  predicate Registered(s: State, w: int) {
    0 <= w < |s.all| && s.all[w].root in s.watches && s.watches[s.all[w].root] == w
  }

  /** A registered watch owns its open handle and exactly one outstanding read. */
  predicate Live(watch: Watch) {
    watch.state != Closed && watch.Outstanding() == 1 && watch.handleCloses == 0 && watch.stops == 0
  }

  /** Any other watch has its handle closed once and nothing outstanding. */
  predicate Dead(watch: Watch) {
    watch.Outstanding() == 0 && watch.handleCloses == 1
    && if watch.state == Closed then watch.stops == 1 else watch.state == Active && watch.stops == 0
  }

  ghost predicate Inv(s: State) {
    && (forall root :: root in s.watches ==> s.watches[root] < |s.all| && s.all[s.watches[root]].root == root)
    && (forall w :: 0 <= w < |s.all| ==> if Registered(s, w) then Live(s.all[w]) else Dead(s.all[w]))
    && (s.closing.Some? ==> s.watches.Keys <= s.closing.value)
    && (s.closed ==> s.watches == map[] && s.closing.None?)
    && (!s.reading ==> s.closed)
  }
}
