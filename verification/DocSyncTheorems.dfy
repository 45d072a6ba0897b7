/** What holds of the notifications clangd receives, over every run of the client. */
module DocSyncTheorems {
  import opened Collections
  import opened DocSyncModel
  import opened DocSyncProofs

  lemma {:induction false} ExecKeepsInv(s: State, steps: seq<Step>)
    requires Inv(s) && ProperRun(s, steps)
    ensures Inv(Exec(s, steps))
    decreases |steps|
  {
    if steps != [] {
      NextKeepsInv(s, steps[0]);
      ExecKeepsInv(Next(s, steps[0]), steps[1..]);
    }
  }

  lemma {:induction false} ReplayMatchesLatest(docs: seq<Doc>, uri: string)
    requires Replay(docs).Some?
    ensures var open := Replay(docs).value; var latest := Latest(docs, uri);
      && (uri in open <==> latest.Some? && !latest.value.DidClose?)
      && (uri in open ==> open[uri] == VersionOf(latest.value))
  {
    if docs != [] { ReplayMatchesLatest(docs[..|docs| - 1], uri); }
  }

  lemma LegalityOfPrefix(docs: seq<Doc>)
    requires docs != []
    ensures var n := |docs| - 1;
      LegalHistory(docs) <==> LegalHistory(docs[..n]) && Follows(Latest(docs[..n], docs[n].uri), docs[n])
  {
    var n := |docs| - 1;
    if LegalHistory(docs) { PrefixIsLegal(docs); }
    if LegalHistory(docs[..n]) && Follows(Latest(docs[..n], docs[n].uri), docs[n]) { OneMoreIsLegal(docs); }
  }

  lemma PrefixIsLegal(docs: seq<Doc>)
    requires docs != [] && LegalHistory(docs)
    ensures var n := |docs| - 1;
      LegalHistory(docs[..n]) && Follows(Latest(docs[..n], docs[n].uri), docs[n])
  {
    var before := docs[..|docs| - 1];
    forall i | 0 <= i < |before| ensures Follows(Latest(before[..i], before[i].uri), before[i]) {
      assert before[..i] == docs[..i] && before[i] == docs[i];
    }
  }

  lemma OneMoreIsLegal(docs: seq<Doc>)
    requires docs != [] && LegalHistory(docs[..|docs| - 1])
    requires var n := |docs| - 1; Follows(Latest(docs[..n], docs[n].uri), docs[n])
    ensures LegalHistory(docs)
  {
    var before := docs[..|docs| - 1];
    forall i | 0 <= i < |docs| ensures Follows(Latest(docs[..i], docs[i].uri), docs[i]) {
      if i < |before| { assert before[..i] == docs[..i] && before[i] == docs[i]; }
    }
  }

  /** Tracking the whole set of open documents and checking each document alone agree. */
  lemma {:induction false} ReplayIsLegality(docs: seq<Doc>)
    ensures Replay(docs).Some? <==> LegalHistory(docs)
  {
    if docs != [] {
      var n := |docs| - 1;
      var before := docs[..n];
      ReplayIsLegality(before);
      LegalityOfPrefix(docs);
      if Replay(before).Some? { ReplayMatchesLatest(before, docs[n].uri); }
    }
  }

  /** Every reachable history is legal, as long as DidClose is asked only for open documents. */
  lemma HistoryIsLegal(steps: seq<Step>)
    requires ProperRun(Initial, steps)
    ensures LegalHistory(Exec(Initial, steps).written)
  {
    ExecKeepsInv(Initial, steps);
    ReplayIsLegality(Exec(Initial, steps).written);
  }

  /** Between operations a live client believes open exactly what the server has open, at the same versions. */
  lemma BookkeepingIsAccurate(steps: seq<Step>)
    requires ProperRun(Initial, steps)
    ensures var s := Exec(Initial, steps);
      Alive(s) && !s.closed && s.call.None? ==> Replay(s.written) == Some(s.documents)
  {
    ExecKeepsInv(Initial, steps);
  }

  // ----- a close for a document that is not open -----

  const OneMessage: seq<Step> := [TakeNext, Write(true, true), Answer]

  function Repeat(n: nat): seq<Step> {
    if n == 0 then [] else OneMessage + Repeat(n - 1)
  }

  /** The writer finishes what it has in hand. */
  function Finish(writer: Writer): seq<Step> {
    match writer
    case Holding(_) => [Write(true, true), Answer]
    case Answering(_, _) => [Answer]
    case _ => []
  }

  function CatchUpRun(s: State): seq<Step> {
    Finish(s.writer) + Repeat(|s.queue|)
  }

  /** One exported DidClose carried through to the transport. */
  function LastClose(uri: string): seq<Step> {
    [Begin(Close(uri)), Check, Enqueue, TakeNext, Write(true, true), Answer]
  }

  function CloseRun(s: State, uri: string): seq<Step> {
    CatchUpRun(s) + LastClose(uri)
  }

  lemma {:induction false} ExecAppend(s: State, first: seq<Step>, second: seq<Step>)
    ensures Exec(s, first + second) == Exec(Exec(s, first), second)
    decreases |first|
  {
    if first == [] {
      assert first + second == second;
    } else {
      assert (first + second)[1..] == first[1..] + second;
      ExecAppend(Next(s, first[0]), first[1..], second);
    }
  }

  lemma TwoSteps(s: State, first: Step, second: Step)
    ensures Exec(s, [first, second]) == Next(Next(s, first), second)
  {
    var s1 := Next(s, first);
    assert [first, second][1..] == [second] && [second][1..] == [];
    assert Exec(s, [first, second]) == Exec(s1, [second]);
    assert Exec(s1, [second]) == Exec(Next(s1, second), []);
  }

  lemma ThreeSteps(s: State, first: Step, second: Step, third: Step)
    ensures Exec(s, [first, second, third]) == Next(Next(Next(s, first), second), third)
  {
    assert [first, second, third][1..] == [second, third];
    TwoSteps(Next(s, first), second, third);
  }

  lemma {:induction false} EmptyQueue(s: State)
    requires s.writer.Idle? && s.call.None? && NoSync(s.queue)
    ensures Exec(s, Repeat(|s.queue|)) == s.(queue := [])
    decreases |s.queue|
  {
    if s.queue != [] {
      var s' := s.(queue := s.queue[1..]);
      ThreeSteps(s, TakeNext, Write(true, true), Answer);
      assert Exec(s, OneMessage) == s';
      EmptyQueue(s');
      ExecAppend(s, OneMessage, Repeat(|s'.queue|));
    } else {
      assert s == s.(queue := []);
    }
  }

  lemma CatchUp(s: State)
    requires Alive(s) && s.call.None? && NoSync(ToWrite(s))
    ensures Exec(s, CatchUpRun(s)) == s.(queue := [], writer := Idle)
  {
    NoneQueued(s);
    FinishInHand(s);
    ExecAppend(s, Finish(s.writer), Repeat(|s.queue|));
    EmptyQueue(s.(writer := Idle));
  }

  lemma NoneQueued(s: State)
    requires NoSync(ToWrite(s))
    ensures NoSync(s.queue)
  {
    assert forall i :: 0 <= i < |s.queue| ==> s.queue[i] == ToWrite(s)[i + |ToWrite(s)| - |s.queue|];
  }

  lemma FinishInHand(s: State)
    requires Alive(s) && s.call.None? && NoSync(ToWrite(s))
    ensures Exec(s, Finish(s.writer)) == s.(writer := Idle)
  {
    if s.writer.Holding? {
      assert ToWrite(s)[0] == s.writer.entry;
      TwoSteps(s, Write(true, true), Answer);
    } else if s.writer.Answering? {
      assert Exec(s, [Answer]) == Exec(Next(s, Answer), []);
    }
  }

  lemma CloseRunWrites(s: State, uri: string)
    requires s.writer.Idle? && !s.closed && s.call.None? && s.queue == []
    ensures Exec(s, LastClose(uri)).written == s.written + [DidClose(uri)]
  {
    var sending, writing := [Begin(Close(uri)), Check, Enqueue], OneMessage;
    assert LastClose(uri) == sending + writing;
    ExecAppend(s, sending, writing);
    CloseIsQueued(s, uri);
    ThreeSteps(Exec(s, sending), TakeNext, Write(true, true), Answer);
  }

  lemma CloseIsQueued(s: State, uri: string)
    requires s.writer.Idle? && !s.closed && s.call.None? && s.queue == []
    ensures var queued := Exec(s, [Begin(Close(uri)), Check, Enqueue]);
      && queued.queue == [Entry(s.tickets, Sync(DidClose(uri)))]
      && queued.writer.Idle? && queued.written == s.written
  {
    ThreeSteps(s, Begin(Close(uri)), Check, Enqueue);
  }

  lemma WholeCloseRunWrites(s: State, uri: string)
    requires Alive(s) && !s.closed && s.call.None? && NoSync(ToWrite(s))
    ensures Exec(s, CloseRun(s, uri)).written == s.written + [DidClose(uri)]
  {
    CatchUp(s);
    ExecAppend(s, CatchUpRun(s), LastClose(uri));
    CloseRunWrites(s.(queue := [], writer := Idle), uri);
  }

  /**
   The exported DidClose does not look at the bookkeeping. Called on a live client it keeps the
   history legal exactly when its document is open.
   */
  lemma CloseIsLegalExactlyWhenOpen(steps: seq<Step>, uri: string)
    requires ProperRun(Initial, steps)
    requires var s := Exec(Initial, steps); Alive(s) && !s.closed && s.call.None?
    ensures var s := Exec(Initial, steps);
      LegalHistory(Exec(s, CloseRun(s, uri)).written) <==> uri in s.documents
  {
    ExecKeepsInv(Initial, steps);
    IdleClientIsInStep(Exec(Initial, steps));
    WholeCloseRunWrites(Exec(Initial, steps), uri);
    ClosingIsLegalWhenOpen(Exec(Initial, steps).written, uri);
  }

  /** With no operation under way, a live client's books are the server's, and no notification is queued. */
  lemma IdleClientIsInStep(s: State)
    requires Inv(s) && Alive(s) && !s.closed && s.call.None?
    ensures Replay(s.written) == Some(s.documents) && NoSync(ToWrite(s))
  {
  }

  lemma ClosingIsLegalWhenOpen(written: seq<Doc>, uri: string)
    requires Replay(written).Some?
    ensures LegalHistory(written + [DidClose(uri)]) <==> uri in Replay(written).value
  {
    ReplayOneMore(written, DidClose(uri));
    ReplayIsLegality(written + [DidClose(uri)]);
  }

  /** So a DidClose on a client that has opened nothing makes the history illegal. */
  lemma ACloseTooMany(uri: string)
    ensures !LegalHistory(Exec(Initial, CloseRun(Initial, uri)).written)
  {
    assert Exec(Initial, []) == Initial;
    CloseIsLegalExactlyWhenOpen([], uri);
  }

  // ----- after termination -----

  ghost predicate SyncQueued(queue: seq<Entry>) {
    exists i :: 0 <= i < |queue| && queue[i].message.Sync?
  }

  /** The notifications that can still reach the transport once the client is closed. */
  ghost function StillToCome(s: State): nat {
    if s.writer.Gone? then 0
    else if SyncQueued(s.queue) then 1
    else if s.call.Some? && s.call.value.stage == Sending && s.call.value.message.Sync? then 1
    else 0
  }

  lemma ClosedWriteSpends(s: State, whole: bool, ok: bool)
    requires Core(s) && s.closed && MergedEnabled(s, Write(whole, ok))
    ensures var s' := WriteStep(s, whole, ok);
      |s'.written| + StillToCome(s') <= |s.written| + StillToCome(s)
  {
    var s' := WriteStep(s, whole, ok);
    assert forall i :: 0 <= i < |s'.queue| ==> s'.queue[i] == s.queue[i + 1];
    if s.queue[0].message.Sync? {
      assert SyncQueued(s.queue);
      assert !SyncQueued(s'.queue);
    }
  }

  lemma MergedStepSpends(s: State, step: Step)
    requires Core(s) && s.closed && MergedEnabled(s, step)
    ensures var s' := MergedNext(s, step);
      s'.closed && |s'.written| + StillToCome(s') <= |s.written| + StillToCome(s)
  {
    match step
    case Write(whole, ok) => ClosedWriteSpends(s, whole, ok);
    case Enqueue =>
      assert forall i :: 0 <= i < |s.queue| ==> EnqueueStep(s).queue[i] == s.queue[i];
    case QueueOther =>
      assert forall i :: 0 <= i < |s.queue| ==> QueueStep(s).queue[i] == s.queue[i];
    case _ =>
  }

  lemma ClosedStepSpends(s: State, step: Step)
    requires Inv(s) && s.closed
    ensures var s' := Next(s, step);
      s'.closed && |s'.written| + StillToCome(Merged(s')) <= |s.written| + StillToCome(Merged(s))
  {
    if Enabled(s, step) {
      StepMerges(s, step);
      MergedStepSpends(Merged(s), step);
    }
  }

  lemma {:induction false} ClosedRunSpends(s: State, more: seq<Step>)
    requires Inv(s) && s.closed && ProperRun(s, more)
    ensures |Exec(s, more).written| + StillToCome(Merged(Exec(s, more))) <= |s.written| + StillToCome(Merged(s))
    decreases |more|
  {
    if more != [] {
      ClosedStepSpends(s, more[0]);
      NextKeepsInv(s, more[0]);
      ClosedRunSpends(Next(s, more[0]), more[1..]);
    }
  }

  /** Termination strands at most one notification: no run writes two after the client has closed. */
  lemma AtMostOneAfterTermination(steps: seq<Step>, more: seq<Step>)
    requires ProperRun(Initial, steps) && ProperRun(Exec(Initial, steps), more)
    requires Exec(Initial, steps).closed
    ensures |Exec(Initial, steps + more).written| <= |Exec(Initial, steps).written| + 1
  {
    ExecKeepsInv(Initial, steps);
    ExecAppend(Initial, steps, more);
    ClosedRunSpends(Exec(Initial, steps), more);
  }
}
