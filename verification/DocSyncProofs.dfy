/** The document history that reaches clangd is legal, whatever fails and whoever races. */
module DocSyncProofs {
  import opened Collections
  import opened DocSyncModel

  predicate NoSync(queue: seq<Entry>) {
    forall i :: 0 <= i < |queue| ==> queue[i].message.Other?
  }

  /** Exactly this message is queued under this ticket, and no other notification is queued. */
  ghost predicate OnlySync(queue: seq<Entry>, ticket: nat, message: Message) {
    && (exists i :: 0 <= i < |queue| && queue[i].ticket == ticket)
    && (forall i :: 0 <= i < |queue| && queue[i].ticket == ticket ==> queue[i].message == message)
    && (forall i :: 0 <= i < |queue| && queue[i].ticket != ticket ==> queue[i].message.Other?)
  }

  predicate Allowed(open: map<string, nat>, message: Message) {
    message.Sync? ==> Accept(open, message.doc).Some?
  }

  /** A notification whose sender has given up may still be queued, once and allowed. */
  ghost predicate AtMostOneOrphan(s: State, open: map<string, nat>) {
    forall i, j :: 0 <= i < |s.queue| && 0 <= j < |s.queue| && s.queue[i].message.Sync? && s.queue[j].message.Sync? ==>
      i == j && Allowed(open, s.queue[i].message)
  }

  /** What the writer may still put on the transport, by the stage of the operation holding the lock. */
  ghost predicate Pipeline(s: State, open: map<string, nat>) {
    if s.call.None? || s.call.value.stage == Checking then
      if s.closed then AtMostOneOrphan(s, open)
      else open == s.documents && NoSync(s.queue) && (s.call.Some? ==> Allowed(open, s.call.value.message))
    else
      var call := s.call.value;
      match call.stage
      case Waiting(ticket, None) =>
        open == s.documents && OnlySync(s.queue, ticket, call.message) && Allowed(open, call.message)
      case Waiting(ticket, Some(ok)) =>
        && ok && NoSync(s.queue) && Allowed(s.documents, call.message)
        && open == Noted(s.documents, call.message)
      case _ => open == s.documents && NoSync(s.queue) && Allowed(open, call.message)
  }

  ghost predicate TicketsInv(s: State) {
    && (forall i :: 0 <= i < |s.queue| ==> s.queue[i].ticket < s.tickets)
    && (forall i, j :: 0 <= i < j < |s.queue| ==> s.queue[i].ticket != s.queue[j].ticket)
    && (s.call.Some? && s.call.value.stage.Waiting? ==> s.call.value.stage.ticket < s.tickets)
    && (s.call.Some? && s.call.value.stage.Waiting? && s.call.value.stage.answer.Some? ==>
          forall i :: 0 <= i < |s.queue| ==> s.queue[i].ticket != s.call.value.stage.ticket)
  }

  /** What holds of a state in which the writer has nothing in hand. */
  ghost predicate Core(s: State) {
    && TicketsInv(s)
    && Replay(s.written).Some?
    && (s.writer.Idle? ==> Pipeline(s, Replay(s.written).value))
  }

  // ----- what the writer has in hand -----

  /** The messages still to be written: the one in the writer's hand and those queued. */
  function ToWrite(s: State): seq<Entry> {
    (if s.writer.Holding? then [s.writer.entry] else []) + s.queue
  }

  /** The operation as it will be once the writer has given the answer it has ready. */
  function Heard(s: State): Option<Call> {
    if s.writer.Answering? then Answered(s.call, s.writer.ticket, s.writer.ok) else s.call
  }

  /** The same moment, if taking a message, writing it and answering its sender were one step: the write. */
  function Merged(s: State): State {
    s.(queue := ToWrite(s), call := Heard(s), writer := if Alive(s) then Idle else Gone)
  }

  ghost predicate Inv(s: State) {
    Core(Merged(s)) && (s.writer.Answering? ==> s.writer.ticket < s.tickets)
  }

  /** The exported DidClose is only called for documents that are open. */
  predicate Proper(s: State, step: Step) {
    step.Begin? && step.operation.Close? && s.call.None? ==> step.operation.uri in s.documents
  }

  predicate ProperRun(s: State, steps: seq<Step>)
    decreases |steps|
  {
    steps == [] || (Proper(s, steps[0]) && ProperRun(Next(s, steps[0]), steps[1..]))
  }

  /** Whatever is next in the queue, the protocol allows it now. */
  lemma HeadAllowed(s: State, open: map<string, nat>)
    requires TicketsInv(s) && Pipeline(s, open) && |s.queue| > 0
    ensures Allowed(open, s.queue[0].message)
  {
  }

  /** The three steps of the writer as one. */
  function WriteStep(s: State, whole: bool, ok: bool): State
    requires |s.queue| > 0
  {
    var entry := s.queue[0];
    s.(queue := s.queue[1..],
       call := Answered(s.call, entry.ticket, ok),
       writer := if ok then Idle else Gone,
       written := Written(s.written, entry.message, whole))
  }

  lemma WriteKeepsTickets(s: State, whole: bool, ok: bool)
    requires TicketsInv(s) && |s.queue| > 0
    ensures TicketsInv(WriteStep(s, whole, ok))
  {
  }

  /** A successful write moves its notification from the pipeline into the history. */
  lemma WriteKeepsPipeline(s: State, open: map<string, nat>)
    requires TicketsInv(s) && Pipeline(s, open) && |s.queue| > 0
    ensures Pipeline(WriteStep(s, true, true), Noted(open, s.queue[0].message))
  {
    var s' := WriteStep(s, true, true);
    assert forall i :: 0 <= i < |s'.queue| ==> s'.queue[i] == s.queue[i + 1];
    if s.call.Some? && s.call.value.stage.Waiting? && s.call.value.stage.answer.None? {
      WriteWhileWaiting(s, open);
    }
  }

  lemma WriteWhileWaiting(s: State, open: map<string, nat>)
    requires TicketsInv(s) && Pipeline(s, open) && |s.queue| > 0
    requires s.call.Some? && s.call.value.stage.Waiting? && s.call.value.stage.answer.None?
    ensures Pipeline(WriteStep(s, true, true), Noted(open, s.queue[0].message))
  {
    var s' := WriteStep(s, true, true);
    var ticket := s.call.value.stage.ticket;
    assert forall i :: 0 <= i < |s'.queue| ==> s'.queue[i] == s.queue[i + 1];
    if s.queue[0].ticket == ticket {
      assert NoSync(s'.queue);
    } else {
      var i :| 0 <= i < |s.queue| && s.queue[i].ticket == ticket;
      assert s'.queue[i - 1].ticket == ticket;
      assert OnlySync(s'.queue, ticket, s.call.value.message);
    }
  }

  lemma ReplayOneMore(docs: seq<Doc>, doc: Doc)
    requires Replay(docs).Some?
    ensures Replay(docs + [doc]) == Accept(Replay(docs).value, doc)
  {
    assert (docs + [doc])[..|docs|] == docs;
  }

  lemma WriteKeepsHistory(s: State, whole: bool, ok: bool)
    requires Replay(s.written).Some? && |s.queue| > 0 && Allowed(Replay(s.written).value, s.queue[0].message)
    ensures Replay(WriteStep(s, whole, ok).written).Some?
    ensures whole ==>
      Replay(WriteStep(s, whole, ok).written) == Some(Noted(Replay(s.written).value, s.queue[0].message))
  {
    if whole && s.queue[0].message.Sync? { ReplayOneMore(s.written, s.queue[0].message.doc); }
  }

  lemma WriteKeepsCore(s: State, whole: bool, ok: bool)
    requires Core(s) && s.writer.Idle? && |s.queue| > 0 && (ok ==> whole)
    ensures Core(WriteStep(s, whole, ok))
  {
    var open := Replay(s.written).value;
    HeadAllowed(s, open);
    WriteKeepsTickets(s, whole, ok);
    WriteKeepsHistory(s, whole, ok);
    if ok { WriteKeepsPipeline(s, open); }
  }

  lemma EnqueueKeepsCore(s: State)
    requires Core(s) && s.call.Some? && s.call.value.stage == Sending
    ensures Core(EnqueueStep(s))
  {
    var s' := EnqueueStep(s);
    assert s'.queue[|s.queue|].ticket == s.tickets;
  }

  lemma QueueKeepsTickets(s: State)
    requires TicketsInv(s)
    ensures TicketsInv(QueueStep(s))
  {
  }

  lemma QueueKeepsPipeline(s: State, open: map<string, nat>)
    requires TicketsInv(s) && Pipeline(s, open)
    ensures Pipeline(QueueStep(s), open)
  {
    var s' := QueueStep(s);
    assert forall i :: 0 <= i < |s.queue| ==> s'.queue[i] == s.queue[i];
  }

  lemma QueueKeepsCore(s: State)
    requires Core(s)
    ensures Core(QueueStep(s))
  {
    QueueKeepsTickets(s);
    if s.writer.Idle? { QueueKeepsPipeline(s, Replay(s.written).value); }
  }

  /** The lock holder giving up, by timeout or termination, strands at most its own notification. */
  lemma GivingUpKeepsCore(s: State, step: Step)
    requires Core(s) && (step.TimeOut? || step.SeeDone? || step.Terminate?) && Enabled(s, step)
    ensures Core(Next(s, step))
  {
  }

  lemma ReceiveKeepsCore(s: State)
    requires Core(s) && Enabled(s, Receive)
    ensures Core(Next(s, Receive))
  {
  }

  // ----- one step at a time -----

  /** What a step does to the merged state: the writer's other steps do nothing, and the queue has no bound. */
  function MergedNext(s: State, step: Step): State
    requires step.Write? ==> |s.queue| > 0
    requires step.Enqueue? ==> s.call.Some?
  {
    match step
    case TakeNext => s
    case Answer => s
    case Write(whole, ok) => WriteStep(s, whole, ok)
    case Enqueue => EnqueueStep(s)
    case QueueOther => QueueStep(s)
    case WriterExits => s.(writer := Gone)
    case _ => Next(s, step)
  }

  predicate MergedEnabled(s: State, step: Step) {
    match step
    case TakeNext => true
    case Answer => true
    case Write(whole, ok) => s.writer.Idle? && |s.queue| > 0 && (ok ==> whole)
    case Enqueue => s.call.Some? && s.call.value.stage == Sending
    case QueueOther => true
    case WriterExits => true
    case _ => Enabled(s, step)
  }

  lemma TakeNextMerges(s: State)
    requires Enabled(s, TakeNext)
    ensures Merged(Next(s, TakeNext)) == Merged(s)
  {
    assert ToWrite(Next(s, TakeNext)) == ToWrite(s);
  }

  lemma WriteMerges(s: State, whole: bool, ok: bool)
    requires Enabled(s, Write(whole, ok))
    ensures MergedEnabled(Merged(s), Write(whole, ok))
    ensures Merged(Next(s, Write(whole, ok))) == WriteStep(Merged(s), whole, ok)
  {
    assert ToWrite(s)[0] == s.writer.entry && ToWrite(s)[1..] == s.queue;
  }

  lemma WriterMerges(s: State, step: Step)
    requires Enabled(s, step) && (step.TakeNext? || step.Write? || step.Answer? || step.WriterExits?)
    ensures MergedEnabled(Merged(s), step) && Merged(Next(s, step)) == MergedNext(Merged(s), step)
  {
    match step
    case TakeNext => TakeNextMerges(s);
    case Write(whole, ok) => WriteMerges(s, whole, ok);
    case _ =>
  }

  lemma SendersMerge(s: State, step: Step)
    requires Enabled(s, step) && (step.Enqueue? || step.QueueOther?)
    requires s.writer.Answering? ==> s.writer.ticket < s.tickets
    ensures MergedEnabled(Merged(s), step) && Merged(Next(s, step)) == MergedNext(Merged(s), step)
  {
    assert ToWrite(Next(s, step)) == ToWrite(s) + [Next(s, step).queue[|s.queue|]];
  }

  lemma OthersMerge(s: State, step: Step)
    requires Enabled(s, step)
    requires !(step.TakeNext? || step.Write? || step.Answer? || step.WriterExits? || step.Enqueue? || step.QueueOther?)
    ensures MergedEnabled(Merged(s), step) && Merged(Next(s, step)) == MergedNext(Merged(s), step)
  {
    if step.Receive? { ReceiveMerges(s); }
  }

  lemma ReceiveMerges(s: State)
    requires Enabled(s, Receive)
    ensures Enabled(Merged(s), Receive) && Merged(ReceiveStep(s)) == ReceiveStep(Merged(s))
  {
  }

  /** Every step is its merged step. */
  lemma StepMerges(s: State, step: Step)
    requires Inv(s) && Enabled(s, step)
    ensures MergedEnabled(Merged(s), step) && Merged(Next(s, step)) == MergedNext(Merged(s), step)
  {
    if step.TakeNext? || step.Write? || step.Answer? || step.WriterExits? {
      WriterMerges(s, step);
    } else if step.Enqueue? || step.QueueOther? {
      SendersMerge(s, step);
    } else {
      OthersMerge(s, step);
    }
  }

  lemma MergedNextKeepsCore(s: State, step: Step)
    requires Core(s) && Proper(s, step) && MergedEnabled(s, step)
    ensures Core(MergedNext(s, step))
  {
    match step
    case Write(whole, ok) => WriteKeepsCore(s, whole, ok);
    case Enqueue => EnqueueKeepsCore(s);
    case QueueOther => QueueKeepsCore(s);
    case TimeOut => GivingUpKeepsCore(s, step);
    case SeeDone => GivingUpKeepsCore(s, step);
    case Terminate => GivingUpKeepsCore(s, step);
    case Receive => ReceiveKeepsCore(s);
    case _ =>
  }

  lemma NextKeepsInv(s: State, step: Step)
    requires Inv(s) && Proper(s, step)
    ensures Inv(Next(s, step))
  {
    if Enabled(s, step) {
      StepMerges(s, step);
      assert s.call.None? ==> Heard(s).None?;
      assert Proper(Merged(s), step);
      MergedNextKeepsCore(Merged(s), step);
      if step.Write? { assert ToWrite(s)[0] == s.writer.entry; }
    }
  }
}
