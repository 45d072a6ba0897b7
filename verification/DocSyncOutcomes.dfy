/** What the document operations come to on a live client: which notifications are written, and in which order. */
module DocSyncOutcomes {
  import opened Collections
  import opened DocSyncModel
  import opened DocSyncProofs
  import opened DocSyncTheorems

  // ----- operations carried through -----

  /** One message goes all the way: queued, taken, written, answered, and the answer received. */
  const Send: seq<Step> := [Check, Enqueue, TakeNext, Write(true, true), Answer, Receive]

  /** An operation and its one or two messages; the steps for a message that it does not send do nothing. */
  function Carry(operation: Operation): seq<Step> {
    [Begin(operation)] + Send + Send
  }

  /** The notifications an operation has to write, by the documents that the server has open. */
  function Due(operation: Operation, open: map<string, nat>): seq<Doc> {
    match operation
    case Open(uri) => if uri in open then [] else [DidOpen(uri)]
    case Change(uri) => if uri in open then [DidChange(uri, open[uri] + 1)] else []
    case Remove(uri) => if uri in open then [DidClose(uri)] else []
    case Close(uri) => [DidClose(uri)]
  }

  /** How many messages it sends: a removal of an open document also reports the file. */
  function MessagesDue(operation: Operation, open: map<string, nat>): nat {
    match operation
    case Open(uri) => if uri in open then 0 else 1
    case Remove(uri) => if uri in open then 2 else 1
    case _ => 1
  }

  predicate AtRest(s: State) {
    s.writer.Idle? && !s.closed && s.queue == []
  }

  lemma SixSteps(s: State, steps: seq<Step>)
    requires |steps| == 6
    ensures Exec(s, steps)
         == Next(Next(Next(Next(Next(Next(s, steps[0]), steps[1]), steps[2]), steps[3]), steps[4]), steps[5])
  {
    assert steps == [steps[0], steps[1], steps[2]] + [steps[3], steps[4], steps[5]];
    ExecAppend(s, [steps[0], steps[1], steps[2]], [steps[3], steps[4], steps[5]]);
    ThreeSteps(s, steps[0], steps[1], steps[2]);
    ThreeSteps(Exec(s, [steps[0], steps[1], steps[2]]), steps[3], steps[4], steps[5]);
  }

  lemma NothingSent(s: State)
    requires AtRest(s) && s.call.None?
    ensures Exec(s, Send) == s
  {
    SixSteps(s, Send);
  }

  /** The message of an operation is written, and its effect noted. */
  function Sent(s: State, call: Call): State {
    s.(documents := Noted(s.documents, call.message),
       tickets := s.tickets + 1,
       written := Written(s.written, call.message, true),
       call := if call.operation.Remove? && call.message.Sync? then Some(Call(call.operation, Other, Checking))
               else None)
  }

  lemma OneSent(s: State, call: Call)
    requires AtRest(s) && s.call == Some(call) && call.stage == Checking
    ensures Exec(s, Send) == Sent(s, call)
  {
    SixSteps(s, Send);
    QueuedAndTaken(s, call);
    var taken := Next(Next(Next(s, Check), Enqueue), TakeNext);
    WrittenAndReceived(taken, call);
  }

  lemma QueuedAndTaken(s: State, call: Call)
    requires AtRest(s) && s.call == Some(call) && call.stage == Checking
    ensures Next(Next(Next(s, Check), Enqueue), TakeNext)
         == s.(tickets := s.tickets + 1, writer := Holding(Entry(s.tickets, call.message)),
               call := Some(call.(stage := Waiting(s.tickets, None))))
  {
    var checked := s.(call := Some(call.(stage := Sending)));
    assert Next(s, Check) == checked;
    var entry := Entry(s.tickets, call.message);
    assert Next(checked, Enqueue) == checked.(queue := [entry], tickets := s.tickets + 1,
                                              call := Some(call.(stage := Waiting(s.tickets, None))));
  }

  lemma WrittenAndReceived(s: State, call: Call)
    requires s.queue == [] && !s.closed && s.writer.Holding? && s.writer.entry.message == call.message
    requires s.call == Some(call.(stage := Waiting(s.writer.entry.ticket, None))) && s.tickets > 0
    ensures Next(Next(Next(s, Write(true, true)), Answer), Receive)
         == Sent(s.(tickets := s.tickets - 1, writer := Idle), call)
  {
    var ticket := s.writer.entry.ticket;
    var answered := s.(writer := Idle, written := Written(s.written, call.message, true),
                       call := Some(call.(stage := Waiting(ticket, Some(true)))));
    assert Next(Next(s, Write(true, true)), Answer) == answered;
  }

  /** From a client with nothing to do, an operation writes what is due, and its books follow. */
  lemma Carried(s: State, operation: Operation)
    requires AtRest(s) && s.call.None?
    ensures var s' := Exec(s, Carry(operation));
      && AtRest(s') && s'.call.None?
      && s'.written == s.written + Due(operation, s.documents)
      && s'.tickets == s.tickets + MessagesDue(operation, s.documents)
  {
    var begun := Next(s, Begin(operation));
    assert [Begin(operation)][1..] == [] && Exec(s, [Begin(operation)]) == Exec(begun, []);
    ExecAppend(s, [Begin(operation)] + Send, Send);
    ExecAppend(s, [Begin(operation)], Send);
    Begun(s, operation);
    if begun.call.None? {
      NothingSent(s);
    } else {
      OneSent(begun, begun.call.value);
      SecondSent(Sent(begun, begun.call.value));
    }
  }

  /** What an operation begins with: nothing, or the first message of those that are due. */
  lemma Begun(s: State, operation: Operation)
    requires AtRest(s) && s.call.None?
    ensures var s' := Next(s, Begin(operation)); var due := MessagesDue(operation, s.documents);
      if s'.call.None? then s' == s && Due(operation, s.documents) == [] && due == 0
      else
        && s' == s.(call := s'.call) && s'.call.value.stage == Checking && s'.call.value.operation == operation
        && Written(s.written, s'.call.value.message, true) == s.written + Due(operation, s.documents)
        && due == if operation.Remove? && s'.call.value.message.Sync? then 2 else 1
  {
  }

  /** A second message, if there is one, is no notification about a document. */
  lemma SecondSent(s: State)
    requires AtRest(s) && (s.call.Some? ==> s.call.value.stage == Checking && s.call.value.message == Other)
    ensures var s' := Exec(s, Send);
      && AtRest(s') && s'.call.None? && s'.written == s.written
      && s'.tickets == s.tickets + if s.call.Some? then 1 else 0
  {
    if s.call.Some? { OneSent(s, s.call.value); } else { NothingSent(s); }
  }

  lemma {:induction false} SendIsProper(s: State, steps: seq<Step>)
    requires forall i :: 0 <= i < |steps| ==> !steps[i].Begin?
    ensures ProperRun(s, steps)
    decreases |steps|
  {
    if steps != [] { SendIsProper(Next(s, steps[0]), steps[1..]); }
  }

  lemma {:induction false} RepeatBeginsNothing(n: nat)
    ensures forall i :: 0 <= i < |Repeat(n)| ==> !Repeat(n)[i].Begin?
  {
    if n > 0 {
      RepeatBeginsNothing(n - 1);
      assert forall i :: 0 <= i < |Repeat(n)| ==>
        Repeat(n)[i] == if i < 3 then OneMessage[i] else Repeat(n - 1)[i - 3];
    }
  }

  lemma {:induction false} ProperAppend(s: State, first: seq<Step>, second: seq<Step>)
    requires ProperRun(s, first) && ProperRun(Exec(s, first), second)
    ensures ProperRun(s, first + second)
    decreases |first|
  {
    if first == [] {
      assert first + second == second;
    } else {
      assert (first + second)[1..] == first[1..] + second;
      ProperAppend(Next(s, first[0]), first[1..], second);
    }
  }

  lemma CarryIsProper(s: State, operation: Operation)
    requires AtRest(s) && s.call.None? && (operation.Close? ==> operation.uri in s.documents)
    ensures ProperRun(s, CatchUpRun(s) + Carry(operation))
  {
    RepeatBeginsNothing(|s.queue|);
    SendIsProper(s, CatchUpRun(s));
    CatchUp(s);
    assert s.(queue := [], writer := Idle) == s;
    assert Carry(operation)[0] == Begin(operation) && Carry(operation)[1..] == Send + Send;
    SendIsProper(Next(s, Begin(operation)), Send + Send);
    ProperAppend(s, CatchUpRun(s), Carry(operation));
  }

  /**
   An operation carried through on a live client writes DidOpen exactly if it opens a document that
   the server does not have open, DidChange with the next version exactly if it changes one that
   is, and DidClose, followed by one other message, if it removes one. Afterwards the client's
   books are again the server's documents.
   */
  lemma OperationsWriteWhatIsDue(steps: seq<Step>, operation: Operation)
    requires ProperRun(Initial, steps)
    requires var s := Exec(Initial, steps); Alive(s) && !s.closed && s.call.None?
    ensures var s := Exec(Initial, steps); var s' := Exec(s, CatchUpRun(s) + Carry(operation));
      Replay(s.written).Some? &&
      var open := Replay(s.written).value;
      && s'.written == s.written + Due(operation, open)
      && s'.tickets == s.tickets + MessagesDue(operation, open)
      && Alive(s') && !s'.closed && s'.call.None?
      && ((operation.Close? ==> operation.uri in open) ==> Replay(s'.written) == Some(s'.documents))
  {
    var s := Exec(Initial, steps);
    var idle := s.(queue := [], writer := Idle);
    ExecKeepsInv(Initial, steps);
    IdleClientIsInStep(s);
    CatchUp(s);
    ExecAppend(s, CatchUpRun(s), Carry(operation));
    Carried(idle, operation);
    if operation.Close? ==> operation.uri in s.documents { BooksFollow(s, operation); }
  }

  lemma BooksFollow(s: State, operation: Operation)
    requires Inv(s) && Alive(s) && !s.closed && s.call.None?
    requires operation.Close? ==> operation.uri in s.documents
    ensures var s' := Exec(s, CatchUpRun(s) + Carry(operation)); Replay(s'.written) == Some(s'.documents)
  {
    var idle := s.(queue := [], writer := Idle);
    IdleClientIsInStep(s);
    RepeatBeginsNothing(|s.queue|);
    SendIsProper(s, CatchUpRun(s));
    CatchUp(s);
    ExecKeepsInv(s, CatchUpRun(s));
    CarryIsProper(idle, operation);
    ExecAppend(s, CatchUpRun(s), Carry(operation));
    Carried(idle, operation);
    assert CatchUpRun(idle) == [];
    assert [] + Carry(operation) == Carry(operation);
    ExecKeepsInv(idle, Carry(operation));
    IdleClientIsInStep(Exec(idle, Carry(operation)));
  }

  // ----- the order of messages -----

  predicate Increasing(entries: seq<Entry>) {
    forall i, j :: 0 <= i < j < |entries| ==> entries[i].ticket < entries[j].ticket
  }

  /** The messages to be written stand in the order in which they were queued, after those already written. */
  ghost predicate Ordered(s: State) {
    && Increasing(ToWrite(s))
    && (forall i :: 0 <= i < |ToWrite(s)| ==> ToWrite(s)[i].ticket < s.tickets)
    && (s.writer.Answering? ==>
          s.writer.ticket < s.tickets && forall i :: 0 <= i < |s.queue| ==> s.writer.ticket < s.queue[i].ticket)
  }

  lemma QueueingKeepsOrder(s: State, s': State, message: Message)
    requires Ordered(s) && s'.writer == s.writer && s'.tickets == s.tickets + 1
    requires s'.queue == s.queue + [Entry(s.tickets, message)]
    ensures Ordered(s')
  {
    assert ToWrite(s') == ToWrite(s) + [Entry(s.tickets, message)];
  }

  lemma StepKeepsOrder(s: State, step: Step)
    requires Ordered(s)
    ensures Ordered(Next(s, step))
  {
    if Enabled(s, step) {
      match step
      case Enqueue => QueueingKeepsOrder(s, Next(s, step), s.call.value.message);
      case QueueOther => QueueingKeepsOrder(s, Next(s, step), Other);
      case TakeNext => TakeNextMerges(s);
      case Write(whole, ok) => WritingKeepsOrder(s, whole, ok);
      case _ => OthersKeepOrder(s, step);
    }
  }

  lemma WritingKeepsOrder(s: State, whole: bool, ok: bool)
    requires Ordered(s) && Enabled(s, Write(whole, ok))
    ensures Ordered(Next(s, Write(whole, ok)))
  {
    var all := ToWrite(s);
    assert all[0] == s.writer.entry && all[1..] == s.queue;
    assert ToWrite(Next(s, Write(whole, ok))) == s.queue;
    assert forall i :: 0 <= i < |s.queue| ==> s.queue[i] == all[i + 1];
  }

  lemma OthersKeepOrder(s: State, step: Step)
    requires Ordered(s) && Enabled(s, step)
    requires !step.Enqueue? && !step.QueueOther? && !step.TakeNext? && !step.Write?
    ensures Ordered(Next(s, step))
  {
    assert Next(s, step).queue == s.queue && Next(s, step).tickets == s.tickets;
    assert ToWrite(Next(s, step)) == ToWrite(s);
  }

  lemma {:induction false} RunKeepsOrder(s: State, steps: seq<Step>)
    requires Ordered(s)
    ensures Ordered(Exec(s, steps))
    decreases |steps|
  {
    if steps != [] {
      StepKeepsOrder(s, steps[0]);
      RunKeepsOrder(Next(s, steps[0]), steps[1..]);
    }
  }

  /** In every run, whatever the writer takes was queued before all that is left in the queue. */
  lemma MessagesGoOutInOrder(steps: seq<Step>)
    ensures var s := Exec(Initial, steps);
      && Increasing(s.queue)
      && (s.writer.Holding? ==> forall i :: 0 <= i < |s.queue| ==> s.writer.entry.ticket < s.queue[i].ticket)
      && (s.writer.Answering? ==> forall i :: 0 <= i < |s.queue| ==> s.writer.ticket < s.queue[i].ticket)
  {
    assert Ordered(Initial);
    RunKeepsOrder(Initial, steps);
    OrderOfTickets(Exec(Initial, steps));
  }

  lemma OrderOfTickets(s: State)
    requires Ordered(s)
    ensures Increasing(s.queue)
    ensures s.writer.Holding? ==> forall i :: 0 <= i < |s.queue| ==> s.writer.entry.ticket < s.queue[i].ticket
    ensures s.writer.Answering? ==> forall i :: 0 <= i < |s.queue| ==> s.writer.ticket < s.queue[i].ticket
  {
    if s.writer.Holding? {
      assert ToWrite(s)[0] == s.writer.entry;
      assert forall i :: 0 <= i < |s.queue| ==> ToWrite(s)[i + 1] == s.queue[i];
    } else {
      assert ToWrite(s) == s.queue;
    }
  }
}
