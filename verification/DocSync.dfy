/**
 The client's document side as an object. Each method is one step of an operation that holds the
 document lock, of the writer, or of termination; messages and answers pass between them.
 */
module DocSync {
  import opened Collections
  import opened DocSyncModel
  import opened DocSyncTheorems

  class Client {
    var documents: map<string, nat>
    var closed: bool
    var writer: Writer
    var queue: seq<Entry>
    var tickets: nat
    var call: Option<Call>
    var written: seq<Doc>

    function View(): State
      reads this
    {
      State(documents, closed, writer, queue, tickets, call, written)
    }

    constructor ()
      ensures View() == Initial
    {
      documents, closed, writer, queue, tickets, call, written := map[], false, Idle, [], 0, None, [];
    }

    /** DidOpen, SourceFileChanged, SourceFileRemoved or DidClose takes the lock and picks its message. */
    method Begin(operation: Operation)
      requires Enabled(View(), Step.Begin(operation))
      modifies this`call
      ensures View() == Next(old(View()), Step.Begin(operation))
    {
      match operation
      case Open(uri) =>
        if uri !in documents { call := Some(Call(operation, Sync(DidOpen(uri)), Checking)); }
      case Change(uri) =>
        var message := Other;
        if uri in documents { message := Sync(DidChange(uri, documents[uri] + 1)); }
        call := Some(Call(operation, message, Checking));
      case Remove(uri) =>
        var message := Other;
        if uri in documents { message := Sync(DidClose(uri)); }
        call := Some(Call(operation, message, Checking));
      case Close(uri) =>
        call := Some(Call(operation, Sync(DidClose(uri)), Checking));
    }

    /** sendContext looks at the closed flag. */
    method Check()
      requires Enabled(View(), Step.Check)
      modifies this`call
      ensures View() == Next(old(View()), Step.Check)
    {
      if closed {
        call := None;
      } else {
        call := Some(call.value.(stage := Sending));
      }
    }

    method Enqueue()
      requires Enabled(View(), Step.Enqueue)
      modifies this`queue, this`tickets, this`call
      ensures View() == Next(old(View()), Step.Enqueue)
    {
      queue := queue + [Entry(tickets, call.value.message)];
      call := Some(call.value.(stage := Waiting(tickets, None)));
      tickets := tickets + 1;
    }

    /** The deadline passes first: the client is terminated and the operation fails. */
    method TimeOut()
      requires Enabled(View(), Step.TimeOut)
      modifies this`closed, this`call
      ensures View() == Next(old(View()), Step.TimeOut)
    {
      Terminate();
      call := None;
    }

    method SeeDone()
      requires Enabled(View(), Step.SeeDone)
      modifies this`call
      ensures View() == Next(old(View()), Step.SeeDone)
    {
      call := None;
    }

    /** The writer's answer arrives: note what was sent, and carry on if there is more to send. */
    method Receive()
      requires Enabled(View(), Step.Receive)
      modifies this`documents, this`call
      ensures View() == Next(old(View()), Step.Receive)
    {
      var operation, message, ok := call.value.operation, call.value.message, call.value.stage.answer.value;
      call := None;
      if ok && message.Sync? {
        match message.doc
        case DidOpen(uri) => documents := documents[uri := 1];
        case DidChange(uri, version) => documents := documents[uri := version];
        case DidClose(uri) => documents := documents - {uri};
      }
      if ok && message.Sync? && operation.Remove? {
        call := Some(Call(operation, Other, Checking));
      }
    }

    method QueueOther()
      requires Enabled(View(), Step.QueueOther)
      modifies this`queue, this`tickets
      ensures View() == Next(old(View()), Step.QueueOther)
    {
      queue := queue + [Entry(tickets, Other)];
      tickets := tickets + 1;
    }

    /** The writer takes the oldest message off the queue. */
    method TakeNext()
      requires Enabled(View(), Step.TakeNext)
      modifies this`queue, this`writer
      ensures View() == Next(old(View()), Step.TakeNext)
    {
      writer := Holding(queue[0]);
      queue := queue[1..];
    }

    /** It writes the message, with or without success. */
    method Write(whole: bool, ok: bool)
      requires Enabled(View(), Step.Write(whole, ok))
      modifies this`writer, this`written
      ensures View() == Next(old(View()), Step.Write(whole, ok))
    {
      var entry := writer.entry;
      if whole && entry.message.Sync? { written := written + [entry.message.doc]; }
      writer := Answering(entry.ticket, ok);
    }

    /** It answers the sender, and stops after a failure. */
    method Answer()
      requires Enabled(View(), Step.Answer)
      modifies this`call, this`writer
      ensures View() == Next(old(View()), Step.Answer)
    {
      call := Answered(call, writer.ticket, writer.ok);
      writer := if writer.ok then Idle else Gone;
    }

    method WriterExits()
      requires Enabled(View(), Step.WriterExits)
      modifies this`writer
      ensures View() == Next(old(View()), Step.WriterExits)
    {
      writer := Gone;
    }

    method Terminate()
      modifies this`closed
      ensures View() == Next(old(View()), Step.Terminate)
    {
      closed := true;
    }
  }

  /** The method for one step, when it is enabled. */
  method Take(c: Client, step: Step)
    modifies c
    ensures c.View() == Next(old(c.View()), step)
  {
    if Enabled(c.View(), step) {
      match step
      case Begin(operation) => c.Begin(operation);
      case Check => c.Check();
      case Enqueue => c.Enqueue();
      case TimeOut => c.TimeOut();
      case SeeDone => c.SeeDone();
      case Receive => c.Receive();
      case QueueOther => c.QueueOther();
      case TakeNext => c.TakeNext();
      case Write(whole, ok) => c.Write(whole, ok);
      case Answer => c.Answer();
      case WriterExits => c.WriterExits();
      case Terminate => c.Terminate();
    }
  }

  /** Any schedule of the methods drives the object through the corresponding run of the machine. */
  method Drive(c: Client, steps: seq<Step>)
    modifies c
    ensures c.View() == Exec(old(c.View()), steps)
  {
    var i := 0;
    while i < |steps|
      invariant 0 <= i <= |steps|
      invariant c.View() == Exec(old(c.View()), steps[..i])
    {
      ExecAppend(old(c.View()), steps[..i], [steps[i]]);
      assert steps[..i + 1] == steps[..i] + [steps[i]];
      Take(c, steps[i]);
      i := i + 1;
    }
    assert steps[..i] == steps;
  }
}
