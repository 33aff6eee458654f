/**
  Concrete runs that show where the code falls short of its documented promise. Each is a run of the
  same machine the invariants are proved about.
 */
module TransactionCounterexamples {
  import opened Basics
  import opened BridgeReply
  import opened TransactionWorld
  import opened TransactionProtocol

  const NO_HISTORY := History({}, map[], {}, multiset{}, {}, {}, {})

  /** A session directory with a running rename-v1 bridge. */
  const FRESH := World(None, false, None, None, Free, None, None, Unreadable, true, Idle,
                       map[], {}, Counters(1, 1, 1), NO_HISTORY)

  /** Worker 1 was admitted and holds the operation lock. */
  const ADMITTED := FRESH.(
    journal := Some(Journal(1, Ready, Some(NewOperation(1, false)))),
    worker := Some(Worker(1, 1, false, None, Holding)),
    next := Counters(1, 2, 3))

  /** The same directory with one request published by worker 1, which is polling. */
  const POLLED := ADMITTED.(
    journal := Some(Journal(1, Ready, Some(Operation(1, false, true, Some(7), false, [])))),
    worker := Some(Worker(1, 1, false, Some(false), Polling(7))),
    command := Some(Command(1, Some(7))),
    next := Counters(2, 2, 3),
    log := NO_HISTORY.(issued := {7}, published := map[7 := 1]))

  /** A run can be extended by one enabled step. */
  lemma Extend(u: World, steps: seq<Step>, v: World, s: Step)
    requires Reaches(u, steps, v) && Enabled(v, s)
    ensures Reaches(u, steps + [s], Apply(v, s))
  {
    ReachesConcat(u, steps, v, [s], Apply(v, s));
  }

  lemma AdmissionRun() returns (run: seq<Step>)
    ensures Reaches(FRESH, run, ADMITTED)
  {
    var w1 := EntryApply(FRESH, Acquire(false));
    var w2 := EntryApply(w1, Initialise(Clean));
    run := [OfEntry(Acquire(false))];
    assert run[1..] == [];
    Extend(FRESH, run, w1, OfEntry(Initialise(Clean)));
    run := run + [OfEntry(Initialise(Clean))];
    Extend(FRESH, run, w2, OfEntry(Admit(false, Clean)));
    run := run + [OfEntry(Admit(false, Clean))];
  }

  /** The directory once the pending request is journaled and the way is clear for its command file. */
  const CLEARED := POLLED.(
    worker := Some(Worker(1, 1, false, Some(false), PublishReady(7))),
    guard := ByWorker, command := None, next := Counters(1, 2, 3), log := NO_HISTORY.(issued := {7}))

  const NAMED := CLEARED.(worker := Some(Worker(1, 1, false, Some(false), PublishJournaled(7))))

  lemma NamingRun() returns (run: seq<Step>)
    ensures Reaches(ADMITTED, run, NAMED)
  {
    var w1 := PublishApply(ADMITTED, EnterPublish(7));
    assert w1.log.issued == {7};
    run := [];
    Extend(ADMITTED, run, ADMITTED, OfPublish(EnterPublish(7)));
    run := run + [OfPublish(EnterPublish(7))];
    Extend(ADMITTED, run, w1, OfPublish(JournalPending(Clean)));
    run := run + [OfPublish(JournalPending(Clean))];
  }

  lemma ClearingRun() returns (run: seq<Step>)
    ensures Reaches(ADMITTED, run, CLEARED)
  {
    run := NamingRun();
    var w1 := PublishApply(NAMED, FindsNoCommand);
    Extend(ADMITTED, run, NAMED, OfPublish(FindsNoCommand));
    run := run + [OfPublish(FindsNoCommand)];
    Extend(ADMITTED, run, w1, OfPublish(ClearResponse));
    run := run + [OfPublish(ClearResponse)];
  }

  lemma PublishRun() returns (run: seq<Step>)
    ensures Reaches(FRESH, run, POLLED)
  {
    var admission := AdmissionRun();
    var clearing := ClearingRun();
    ReachesConcat(FRESH, admission, ADMITTED, clearing, CLEARED);
    run := admission + clearing;
    var w1 := PublishApply(CLEARED, WriteCommand(Clean));
    Extend(FRESH, run, CLEARED, OfPublish(WriteCommand(Clean)));
    run := run + [OfPublish(WriteCommand(Clean))];
    Extend(FRESH, run, w1, OfPublish(PublishDone(false)));
    run := run + [OfPublish(PublishDone(false))];
  }

  /** The directory while the bridge runs the command. */
  const RUNNING := POLLED.(
    bridge := Executing(Command(1, Some(7))), command := None,
    log := POLLED.log.(taken := {1}, executed := multiset{7}))

  lemma RunningRun() returns (run: seq<Step>)
    ensures Reaches(FRESH, run, RUNNING)
  {
    run := PublishRun();
    var w1 := BridgeApply(POLLED, Claim);
    Extend(FRESH, run, POLLED, OfBridge(Claim));
    run := run + [OfBridge(Claim)];
    assert BridgeApply(w1, Start).log.taken == {1} && BridgeApply(w1, Start).log.executed == multiset{7};
    Extend(FRESH, run, w1, OfBridge(Start));
    run := run + [OfBridge(Start)];
  }

  /**
    A worker fenced while it polls reports `not_executed` for a request that has already run: the
    bridge claims and starts the command, then recovery journals its fence, then the worker looks.
   */
  lemma FencedWorkerCanReportNotExecutedAfterExecution()
    ensures Init(FRESH)
    ensures exists run, w :: Reaches(FRESH, run, w)
              && Report(7, FencedWhilePolling, NotExecuted) in w.log.reports && w.log.executed[7] == 1
  {
    var run := RunningRun();
    var fenced := RecoveryApply(RUNNING, RecoverBegin(Clean));
    Extend(FRESH, run, RUNNING, OfRecovery(RecoverBegin(Clean)));
    run := run + [OfRecovery(RecoverBegin(Clean))];
    Extend(FRESH, run, fenced, OfPoll(SeeFence));
  }

  /** The worker holds the bridge's answer to a command whose Lua raised an error. */
  const ANSWERED := RUNNING.(
    bridge := Idle, response := Some(Response(Some(7), false, false, false, None)),
    worker := Some(Worker(1, 1, false, Some(false), Responded(7, Response(Some(7), false, false, false, None)))),
    log := RUNNING.log.(replied := {7}))

  lemma AnsweredRun() returns (run: seq<Step>)
    ensures Reaches(RUNNING, run, ANSWERED)
  {
    var w1 := BridgeApply(RUNNING, Return(RaisedText, true, true));
    var w2 := BridgeApply(w1, Respond(true));
    run := [];
    Extend(RUNNING, run, RUNNING, OfBridge(Return(RaisedText, true, true)));
    run := run + [OfBridge(Return(RaisedText, true, true))];
    assert w2.log.replied == {7};
    Extend(RUNNING, run, w1, OfBridge(Respond(true)));
    run := run + [OfBridge(Respond(true))];
    Extend(RUNNING, run, w2, OfPoll(ReadResponse));
    run := run + [OfPoll(ReadResponse)];
  }

  /**
    An outermost `send_command` whose deadline expires while its scope closes reports `completed` for a
    command whose handler raised.
   */
  lemma LateExitCanReportCompletedAfterError()
    ensures Init(FRESH)
    ensures exists run, w :: Reaches(FRESH, run, w)
              && Report(7, LateExit, Completed) in w.log.reports && 7 !in w.log.returned
  {
    var running := RunningRun();
    var answered := AnsweredRun();
    ReachesConcat(FRESH, running, RUNNING, answered, ANSWERED);
    Extend(FRESH, running + answered, ANSWERED, OfPoll(Complete(Clean, LateExit)));
  }

  /** The worker holds the bridge's answer to a command that completed. */
  const COMPLETED := RUNNING.(
    bridge := Idle, response := Some(Response(Some(7), true, false, false, None)),
    worker := Some(Worker(1, 1, false, Some(false), Responded(7, Response(Some(7), true, false, false, None)))),
    log := RUNNING.log.(returned := {7}, replied := {7}))

  lemma CompletedRun() returns (run: seq<Step>)
    ensures Reaches(RUNNING, run, COMPLETED)
  {
    var w1 := BridgeApply(RUNNING, Return(Returned, true, true));
    var w2 := BridgeApply(w1, Respond(true));
    run := [];
    Extend(RUNNING, run, RUNNING, OfBridge(Return(Returned, true, true)));
    run := run + [OfBridge(Return(Returned, true, true))];
    assert w1.log.returned == {7} && w2.log.replied == {7};
    Extend(RUNNING, run, w1, OfBridge(Respond(true)));
    run := run + [OfBridge(Respond(true))];
    Extend(RUNNING, run, w2, OfPoll(ReadResponse));
    run := run + [OfPoll(ReadResponse)];
  }

  /** Its completion is recorded and the session is fenced before the call has returned. */
  const FENCED := COMPLETED.(
    journal := Some(Journal(1, Stopping, Some(Operation(1, false, true, None, false, [])))),
    worker := Some(Worker(1, 1, false, Some(false), Returning(7, Response(Some(7), true, false, false, None)))),
    recovery := Some(Fencing(1)), next := Counters(2, 2, 4))

  lemma FencedFinishRun() returns (run: seq<Step>)
    ensures Reaches(COMPLETED, run, FENCED)
  {
    run := [];
    var w1 := PollApply(COMPLETED, ReturnResponse);
    Extend(COMPLETED, run, COMPLETED, OfPoll(ReturnResponse));
    run := run + [OfPoll(ReturnResponse)];
    Extend(COMPLETED, run, w1, OfRecovery(RecoverBegin(Clean)));
    run := run + [OfRecovery(RecoverBegin(Clean))];
  }

  /**
    A `send_command` whose response is in raises `not_executed` when a recovery fences the session before
    its own transaction has finished.
   */
  lemma FencedFinishReportsNotExecutedAfterCompletion()
    ensures Init(FRESH)
    ensures exists run, w :: Reaches(FRESH, run, w)
              && Report(7, FencedWhileFinishing, NotExecuted) in w.log.reports && 7 in w.log.returned
  {
    var running := RunningRun();
    var completed := CompletedRun();
    var fenced := FencedFinishRun();
    ReachesConcat(FRESH, running, RUNNING, completed, COMPLETED);
    ReachesConcat(FRESH, running + completed, COMPLETED, fenced, FENCED);
    Extend(FRESH, running + completed + fenced, FENCED, OfFinish(FinishFenced));
  }

  /** The same command was reported as completed, and its transaction has become a composite. */
  const COMPOSITE := COMPLETED.(
    journal := Some(Journal(1, Ready, Some(Operation(1, true, true, None, false, [])))),
    worker := Some(Worker(1, 1, false, Some(false), Holding)),
    log := COMPLETED.log.(reports := {Report(7, ReturnedResponse, Completed)}))

  const FENCED_COMPOSITE := COMPOSITE.(
    journal := Some(Journal(1, Stopping, Some(Operation(1, true, true, None, false, [])))),
    recovery := Some(Fencing(1)), next := Counters(2, 2, 4))

  lemma CompositeRun() returns (run: seq<Step>)
    ensures Reaches(COMPLETED, run, COMPOSITE)
  {
    run := [];
    var told := PollApply(COMPLETED, Complete(Clean, ReturnedResponse));
    assert told.log.reports == {Report(7, ReturnedResponse, Completed)};
    Extend(COMPLETED, run, COMPLETED, OfPoll(Complete(Clean, ReturnedResponse)));
    run := run + [OfPoll(Complete(Clean, ReturnedResponse))];
    Extend(COMPLETED, run, told, OfMark(Nest(Clean)));
    run := run + [OfMark(Nest(Clean))];
  }

  lemma CompositeFenceRun() returns (run: seq<Step>)
    ensures Reaches(COMPLETED, run, FENCED_COMPOSITE)
  {
    run := CompositeRun();
    Extend(COMPLETED, run, COMPOSITE, OfRecovery(RecoverBegin(Clean)));
    run := run + [OfRecovery(RecoverBegin(Clean))];
  }

  /** The exit of a composite would raise `not_executed` now, with a command of it reported as completed. */
  predicate RaisesAfterCompletion(w: World) {
    && At(w, Holding) && SeesFence(w) && HasOperation(w) && Op(w).composite
    && Report(7, ReturnedResponse, Completed) in w.log.reports && 7 in w.log.returned
  }

  lemma FencedCompositeRaises()
    ensures RaisesAfterCompletion(FENCED_COMPOSITE)
  { }

  lemma FreshToFencedComposite() returns (run: seq<Step>)
    ensures Reaches(FRESH, run, FENCED_COMPOSITE)
  {
    var running := RunningRun();
    var completed := CompletedRun();
    var composite := CompositeFenceRun();
    ReachesConcat(FRESH, running, RUNNING, completed, COMPLETED);
    ReachesConcat(FRESH, running + completed, COMPLETED, composite, FENCED_COMPOSITE);
    run := running + completed + composite;
  }

  /** The exit of a composite can find a session that was fenced after its command completed. */
  lemma FencedCompositeRaisesNotExecutedAfterCompletion()
    ensures Init(FRESH)
    ensures exists run, w :: Reaches(FRESH, run, w) && RaisesAfterCompletion(w)
  {
    FencedCompositeRaises();
    var run := FreshToFencedComposite();
  }

  /** Writing the command file now leaves nothing of the command that another program put there. */
  predicate LosesForeignCommand(w: World) {
    && w.command.Some? && w.command.value.request.None?
    && PublishEnabled(w, WriteCommand(Clean))
    && var v := PublishApply(w, WriteCommand(Clean));
       v.command != w.command && w.command.value !in v.retained && w.command.value.inode !in v.log.taken
  }

  /**
    Publication, unlike withdrawal, can destroy a command another program wrote: the file appears
    between the existence check and the atomic replacement.
   */
  lemma PublicationCanOverwriteForeignCommand()
    ensures Init(FRESH)
    ensures exists run, w :: Reaches(FRESH, run, w) && LosesForeignCommand(w)
  {
    var admission := AdmissionRun();
    var clearing := ClearingRun();
    ReachesConcat(FRESH, admission, ADMITTED, clearing, CLEARED);
    Extend(FRESH, admission + clearing, CLEARED, OfBridge(ForeignPut));
    assert LosesForeignCommand(Apply(CLEARED, OfBridge(ForeignPut)));
  }
}
