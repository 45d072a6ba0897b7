/**
 The root-watch backend as an object: its table of watch objects and its methods' critical
 sections, with the outcomes of the operating system's calls as parameters.
 */
module WatchBackend {
  import opened Collections
  import opened WatchBackendModel

  class RootWatch {
    const id: nat  // its address
    const root: string
    const recursive: bool
    var state: WatchState
    var pending: nat
    var packets: nat
    var handleCloses: nat
    var stops: nat

    constructor (id: nat, root: string, recursive: bool)
      ensures this.id == id && Value() == Watch(root, recursive, Active, 0, 0, 0, 0)
    {
      this.id, this.root, this.recursive := id, root, recursive;
      state, pending, packets, handleCloses, stops := Active, 0, 0, 0, 0;
    }

    function Value(): Watch
      reads this
    {
      Watch(root, recursive, state, pending, packets, handleCloses, stops)
    }
  }

  ghost function Values(watches: seq<RootWatch>): (values: seq<Watch>)
    reads watches
    ensures |values| == |watches| && forall i :: 0 <= i < |watches| ==> values[i] == watches[i].Value()
  {
    seq(|watches|, i requires 0 <= i < |watches| reads watches => watches[i].Value())
  }

  /** The table with addresses for objects. */
  function Ids(watches: map<string, RootWatch>): (ids: map<string, nat>)
    ensures ids.Keys == watches.Keys && forall root :: root in watches ==> ids[root] == watches[root].id
  {
    map root | root in watches :: watches[root].id
  }

  class RootBackend {
    var watches: map<string, RootWatch>
    var all: seq<RootWatch>
    var closing: Option<set<string>>
    var closed: bool
    var reading: bool

    ghost function View(): State
      reads this, all
    {
      State(Ids(watches), Values(all), closing, closed, reading)
    }

    /** A watch's address is its position, and the table refers to known watches. */
    ghost predicate Valid()
      reads this
    {
      && (forall i :: 0 <= i < |all| ==> all[i].id == i)
      && (forall root :: root in watches ==> watches[root].id < |all| && all[watches[root].id] == watches[root])
    }

    constructor ()
      ensures Valid() && View() == Initial && all == []
    {
      watches, all, closing, closed, reading := map[], [], None, false, true;
    }

    /** Opens a root and starts its first read, or closes the handle again if that fails. */
    method Open(root: string, recursive: bool, outcome: AddOutcome) returns (w: RootWatch)
      requires outcome != OpenFails
      modifies this`all
      ensures fresh(w) && w.id == |old(all)| && all == old(all) + [w]
      ensures w.Value() == if outcome == ReadFails then Watch(root, recursive, Active, 0, 0, 1, 0)
                           else Watch(root, recursive, Active, 1, 0, 0, 0)
    {
      w := new RootWatch(|all|, root, recursive);
      if outcome == ReadFails {
        w.handleCloses := w.handleCloses + 1;
      } else {
        w.pending := w.pending + 1;
      }
      all := all + [w];
    }

    method Add(root: string, recursive: bool, outcome: AddOutcome)
      requires Valid() && Enabled(View(), Step.Add(root, recursive, outcome))
      modifies this
      ensures Valid() && fresh((set w | w in all) - old(set w | w in all))
      ensures View() == Next(old(View()), Step.Add(root, recursive, outcome))
    {
      ghost var before := Values(all);
      assert root in watches ==> before[watches[root].id] == watches[root].Value();
      if (root !in watches || watches[root].state == Closed) && outcome != OpenFails {
        var w := Open(root, recursive, outcome);
        assert Values(all) == before + [w.Value()];
        Register(root, w, outcome);
      }
    }

    /** The new watch is the root's, unless its first read failed. */
    method Register(root: string, w: RootWatch, outcome: AddOutcome)
      requires Valid() && w.id < |all| && all[w.id] == w
      modifies this`watches
      ensures Valid()
      ensures View() == old(View()).(watches :=
        if outcome == ReadFails then old(View().watches) - {root} else old(View().watches)[root := w.id])
    {
      assert Ids(watches - {root}) == Ids(watches) - {root};
      assert Ids(watches[root := w]) == Ids(watches)[root := w.id];
      watches := if outcome == ReadFails then watches - {root} else watches[root := w];
    }

    /** The critical section of Remove; the caller then waits for the watch to stop. */
    method RequestRemove(root: string, cancel: CancelOutcome)
      requires Valid()
      modifies all
      ensures Valid() && View() == Next(old(View()), Step.RequestRemove(root, cancel))
    {
      if root in watches {
        var w := watches[root];
        assert View().all[w.id] == w.Value();
        if w.state == Active {
          w.state := Canceling;
          if cancel == CancelFails {
            w.state := Active;
          }
        }
        assert View().all == Next(old(View()), Step.RequestRemove(root, cancel)).all;
      }
    }

    method Finish(w: RootWatch)
      requires Valid() && w in all && w.id < |all| && all[w.id] == w
      modifies this`watches, w
      ensures Valid() && View() == WatchBackendModel.Finish(old(View()), w.id)
      ensures forall root :: root in watches ==> root in old(watches) && watches[root] == old(watches[root])
    {
      if w.state == Closed { return; }
      w.state := Closed;
      assert Ids(watches - {w.root}) == Ids(watches) - {w.root};
      watches := watches - {w.root};
      w.handleCloses, w.stops := w.handleCloses + 1, w.stops + 1;
      assert Values(all) == old(Values(all))[w.id := w.Value()];
    }

    method Complete(i: nat)
      requires Valid() && Enabled(View(), Step.Complete(i))
      modifies all
      ensures Valid() && View() == Next(old(View()), Step.Complete(i))
    {
      all[i].pending, all[i].packets := all[i].pending - 1, all[i].packets + 1;
      assert View().all == Next(old(View()), Step.Complete(i)).all;
    }

    /** One turn of the reader: what it does with a packet under the lock. */
    method Drain(i: nat, packet: Packet, rearmed: bool)
      requires Valid() && Enabled(View(), Step.Drain(i, packet, rearmed))
      modifies this`watches, all
      ensures Valid() && all == old(all)
      ensures View() == Next(old(View()), Step.Drain(i, packet, rearmed))
    {
      var w := all[i];
      Consume(w);
      if w.state == Canceling || packet != Completed {
        Finish(w);
      } else if w.state == Active {
        if rearmed {
          Rearm(w);
        } else {
          Finish(w);
        }
      }
    }

    method Consume(w: RootWatch)
      requires Valid() && w.id < |all| && all[w.id] == w && w.packets > 0
      modifies w
      ensures View() == WatchBackendModel.Consume(old(View()), w.id) && w.state == old(w.state)
    {
      w.packets := w.packets - 1;
      assert View().all == WatchBackendModel.Consume(old(View()), w.id).all;
    }

    method Rearm(w: RootWatch)
      requires Valid() && w.id < |all| && all[w.id] == w
      modifies w
      ensures View() == WatchBackendModel.Rearm(old(View()), w.id)
    {
      w.pending := w.pending + 1;
      assert View().all == WatchBackendModel.Rearm(old(View()), w.id).all;
    }

    method BeginClose()
      requires Valid() && Enabled(View(), Step.BeginClose)
      modifies this`closing
      ensures Valid() && View() == Next(old(View()), Step.BeginClose)
    {
      assert View().watches.Keys == watches.Keys;
      closing := Some(watches.Keys);
    }

    method CloseRemoved(root: string)
      requires Valid() && Enabled(View(), Step.CloseRemoved(root))
      modifies this`closing
      ensures Valid() && View() == Next(old(View()), Step.CloseRemoved(root))
    {
      closing := Some(closing.value - {root});
    }

    method AbortClose()
      requires Valid() && Enabled(View(), Step.AbortClose)
      modifies this`closing
      ensures Valid() && View() == Next(old(View()), Step.AbortClose)
    {
      closing := None;
    }

    method EndClose()
      requires Valid() && Enabled(View(), Step.EndClose)
      modifies this`closing, this`closed
      ensures Valid() && View() == Next(old(View()), Step.EndClose)
    {
      closing, closed := None, true;
    }

    method ReaderExits()
      requires Valid() && Enabled(View(), Step.ReaderExits)
      modifies this`reading
      ensures Valid() && View() == Next(old(View()), Step.ReaderExits)
    {
      reading := false;
    }
  }

  /** Any schedule of the methods drives the object through the corresponding run of the machine. */
  method Drive(b: RootBackend, steps: seq<Step>)
    requires b.Valid()
    modifies b, b.all
    ensures b.Valid() && b.View() == Exec(old(b.View()), steps)
  {
    var i := 0;
    while i < |steps|
      invariant 0 <= i <= |steps| && b.Valid()
      invariant fresh((set w | w in b.all) - old(set w | w in b.all))
      invariant b.View() == Exec(old(b.View()), steps[..i])
    {
      ExecAppend(old(b.View()), steps[..i], steps[i]);
      assert steps[..i + 1] == steps[..i] + [steps[i]];
      Take(b, steps[i]);
      i := i + 1;
    }
    assert steps[..i] == steps;
  }

  /** The method for one step, when it is enabled. */
  method Take(b: RootBackend, step: Step)
    requires b.Valid()
    modifies b, b.all
    ensures b.Valid() && fresh((set w | w in b.all) - old(set w | w in b.all))
    ensures b.View() == Next(old(b.View()), step)
  {
    match step
    case Add(root, recursive, outcome) =>
      if b.closing.None? && !b.closed { b.Add(root, recursive, outcome); }
    case RequestRemove(root, cancel) => b.RequestRemove(root, cancel);
    case Complete(w) =>
      if w < |b.all| && b.all[w].pending > 0 { b.Complete(w); }
    case Drain(w, packet, rearmed) =>
      if b.reading && w < |b.all| && b.all[w].packets > 0 { b.Drain(w, packet, rearmed); }
    case _ => TakeClosing(b, step);
  }

  /** The method for a step of Close or of the reader's end. */
  method TakeClosing(b: RootBackend, step: Step)
    requires b.Valid() && !step.Add? && !step.RequestRemove? && !step.Complete? && !step.Drain?
    modifies b
    ensures b.Valid() && b.all == old(b.all) && b.View() == Next(old(b.View()), step)
  {
    match step
    case BeginClose =>
      if b.closing.None? && !b.closed { b.BeginClose(); }
    case CloseRemoved(root) =>
      if b.closing.Some? && (root !in b.watches || b.watches[root].stops > 0) { b.CloseRemoved(root); }
    case AbortClose =>
      if b.closing.Some? { b.AbortClose(); }
    case EndClose =>
      if b.closing.Some? && b.closing.value == {} { b.EndClose(); }
    case ReaderExits =>
      if b.closed { b.ReaderExits(); }
  }
}
