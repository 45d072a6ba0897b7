/**
 How the client keeps clangd's view of open documents in step. Document operations hold one
 lock while they send; every message goes through a bounded queue to one writer goroutine.
 Timeouts, a failing transport and termination may strike between any two steps, and Go's
 select may take any ready branch.
 */
module DocSyncModel {
  import opened Collections

  datatype Doc = DidOpen(uri: string) | DidChange(uri: string, version: nat) | DidClose(uri: string)
  datatype Message = Sync(doc: Doc) | Other
  datatype Entry = Entry(ticket: nat, message: Message)

  // Open stands for DidOpen and ensureDocumentOpen, Close for the exported DidClose.
  datatype Operation = Open(uri: string) | Change(uri: string) | Remove(uri: string) | Close(uri: string)

  // Checking: about to look at the closed flag. Sending: about to queue the message.
  // Waiting: queued; the writer's answer, if it has been given.
  datatype Stage = Checking | Sending | Waiting(ticket: nat, answer: Option<bool>)
  datatype Call = Call(operation: Operation, message: Message, stage: Stage)

  // The writer waits for a message, holds one that it is writing, or has yet to answer its sender.
  datatype Writer = Idle | Holding(entry: Entry) | Answering(ticket: nat, ok: bool) | Gone

  // `written` is the history of document notifications that reached the transport whole.
  datatype State = State(
    documents: map<string, nat>,
    closed: bool,
    writer: Writer,
    queue: seq<Entry>,
    tickets: nat,
    call: Option<Call>,
    written: seq<Doc>)

  datatype Step =
    | Begin(operation: Operation)
    | Check
    | Enqueue
    | TimeOut
    | SeeDone
    | Receive
    | QueueOther
    | TakeNext
    | Write(whole: bool, ok: bool)
    | Answer
    | WriterExits
    | Terminate

  const QUEUE_CAPACITY := 32

  const Initial := State(map[], false, Idle, [], 0, None, [])

  /** What an operation first sends, given the documents it believes open. */
  function FirstMessage(operation: Operation, documents: map<string, nat>): Option<Message> {
    match operation
    case Open(uri) => if uri in documents then None else Some(Sync(DidOpen(uri)))
    case Change(uri) => if uri in documents then Some(Sync(DidChange(uri, documents[uri] + 1))) else Some(Other)
    case Remove(uri) => if uri in documents then Some(Sync(DidClose(uri))) else Some(Other)
    case Close(uri) => Some(Sync(DidClose(uri)))
  }

  /** The bookkeeping after a message was sent without error. */
  function Noted(documents: map<string, nat>, message: Message): map<string, nat> {
    match message
    case Sync(DidOpen(uri)) => documents[uri := 1]
    case Sync(DidChange(uri, version)) => documents[uri := version]
    case Sync(DidClose(uri)) => documents - {uri}
    case Other => documents
  }

  predicate Enabled(s: State, step: Step) {
    match step
    case Begin(_) => s.call.None?
    case Check => s.call.Some? && s.call.value.stage == Checking
    case Enqueue => s.call.Some? && s.call.value.stage == Sending && |s.queue| < QUEUE_CAPACITY
    case TimeOut => s.call.Some? && s.call.value.stage != Checking
    case SeeDone => s.call.Some? && s.call.value.stage != Checking && s.closed
    case Receive => s.call.Some? && s.call.value.stage.Waiting? && s.call.value.stage.answer.Some?
    case QueueOther => |s.queue| < QUEUE_CAPACITY
    case TakeNext => s.writer.Idle? && |s.queue| > 0
    case Write(whole, ok) => s.writer.Holding? && (ok ==> whole)
    case Answer => s.writer.Answering?
    case WriterExits => s.closed && s.writer.Idle?
    case Terminate => true
  }

  function Answered(call: Option<Call>, ticket: nat, ok: bool): Option<Call> {
    if call.Some? && call.value.stage.Waiting? && call.value.stage.ticket == ticket && call.value.stage.answer.None?
    then Some(call.value.(stage := Waiting(ticket, Some(ok))))
    else call
  }

  function EnqueueStep(s: State): State
    requires s.call.Some?
  {
    s.(queue := s.queue + [Entry(s.tickets, s.call.value.message)], tickets := s.tickets + 1,
       call := Some(s.call.value.(stage := Waiting(s.tickets, None))))
  }

  function QueueStep(s: State): State {
    s.(queue := s.queue + [Entry(s.tickets, Other)], tickets := s.tickets + 1)
  }

  // A failing transport may or may not have taken the whole message.
  function Written(written: seq<Doc>, message: Message, whole: bool): seq<Doc> {
    if whole && message.Sync? then written + [message.doc] else written
  }

  function ReceiveStep(s: State): State
    requires Enabled(s, Receive)
  {
    var call := s.call.value;
    if !call.stage.answer.value then s.(call := None)
    else
      var s' := s.(documents := Noted(s.documents, call.message));
      if call.operation.Remove? && call.message.Sync?
      then s'.(call := Some(Call(call.operation, Other, Checking)))
      else s'.(call := None)
  }

  function Next(s: State, step: Step): State {
    if !Enabled(s, step) then s else
    match step
    case Begin(operation) =>
      var message := FirstMessage(operation, s.documents);
      if message.None? then s else s.(call := Some(Call(operation, message.value, Checking)))
    case Check =>
      if s.closed then s.(call := None) else s.(call := Some(s.call.value.(stage := Sending)))
    case Enqueue => EnqueueStep(s)
    case TimeOut => s.(closed := true, call := None)
    case SeeDone => s.(call := None)
    case Receive => ReceiveStep(s)
    case QueueOther => QueueStep(s)
    case TakeNext => s.(queue := s.queue[1..], writer := Holding(s.queue[0]))
    case Write(whole, ok) =>
      s.(writer := Answering(s.writer.entry.ticket, ok), written := Written(s.written, s.writer.entry.message, whole))
    case Answer =>
      s.(writer := if s.writer.ok then Idle else Gone, call := Answered(s.call, s.writer.ticket, s.writer.ok))
    case WriterExits => s.(writer := Gone)
    case Terminate => s.(closed := true)
  }

  /** The writer may still write. */
  predicate Alive(s: State) {
    !s.writer.Gone? && (s.writer.Answering? ==> s.writer.ok)
  }

  function Exec(s: State, steps: seq<Step>): State
    decreases |steps|
  {
    if steps == [] then s else Exec(Next(s, steps[0]), steps[1..])
  }

  // ----- what the protocol makes of a history -----

  /**
   One notification, when it is in order. The protocol asks that versions increase; this client
   promises that they are consecutive.
   */
  function Accept(open: map<string, nat>, doc: Doc): Option<map<string, nat>> {
    match doc
    case DidOpen(uri) => if uri in open then None else Some(open[uri := 1])
    case DidChange(uri, version) => if uri in open && version == open[uri] + 1 then Some(open[uri := version]) else None
    case DidClose(uri) => if uri in open then Some(open - {uri}) else None
  }

  /** The documents the server has open after a history, if every notification was in order. */
  function Replay(docs: seq<Doc>): Option<map<string, nat>> {
    if docs == [] then Some(map[])
    else
      var before := Replay(docs[..|docs| - 1]);
      if before.None? then None else Accept(before.value, docs[|docs| - 1])
  }

  /** The latest notification about one document. */
  function Latest(docs: seq<Doc>, uri: string): Option<Doc> {
    if docs == [] then None
    else if docs[|docs| - 1].uri == uri then Some(docs[|docs| - 1])
    else Latest(docs[..|docs| - 1], uri)
  }

  function VersionOf(doc: Doc): nat
    requires !doc.DidClose?
  {
    if doc.DidOpen? then 1 else doc.version
  }

  /** The same rule one document at a time: each notification against the previous one about its document. */
  predicate Follows(previous: Option<Doc>, doc: Doc) {
    var open := previous.Some? && !previous.value.DidClose?;
    match doc
    case DidOpen(_) => !open
    case DidChange(_, version) => open && version == VersionOf(previous.value) + 1
    case DidClose(_) => open
  }

  predicate LegalHistory(docs: seq<Doc>) {
    forall i :: 0 <= i < |docs| ==> Follows(Latest(docs[..i], docs[i].uri), docs[i])
  }
}
