/**
  What the invariant means over whole runs: one request in flight, at most one execution, withdrawal
  that excludes execution, and execution outcomes that hold in every continuation.
 */
module TransactionSafety {
  import opened Basics
  import opened BridgeReply
  import opened TransactionWorld
  import opened TransactionProtocol
  import opened TransactionFrames
  import opened TransactionInvariant

  /** Every report of a step is sound after it. */
  lemma StepTells(w: World, s: Step)
    requires Inv(w) && Reports(w) && Enabled(w, s)
    ensures Reports(Apply(w, s))
  {
    forall p | p in Apply(w, s).log.reports
      ensures SoundReport(Apply(w, s), p)
    {
      match s
      case OfBridge(t) => BridgeTells(w, t, p);
      case OfEntry(t) => EntryTells(w, t, p);
      case OfStaging(t) => StagingTells(w, t, p);
      case OfPublish(t) => PublishTells(w, t, p);
      case OfPoll(t) => PollTells(w, t, p);
      case OfWithdraw(t) => WithdrawTells(w, t, p);
      case OfMark(t) => MarkTells(w, t, p);
      case OfFinish(t) => FinishTells(w, t, p);
      case OfRecovery(t) => RecoveryTells(w, t, p);
    }
  }

  lemma StepBars(w: World, s: Step, r: Request)
    requires Inv(w) && Enabled(w, s) && CannotRun(w, r)
    ensures CannotRun(Apply(w, s), r)
  {
    match s
    case OfBridge(t) => BridgeBars(w, t, r);
    case OfEntry(t) => EntryBars(w, t, r);
    case OfStaging(t) => StagingBars(w, t, r);
    case OfPublish(t) => PublishBars(w, t, r);
    case OfPoll(t) => PollBars(w, t, r);
    case OfWithdraw(t) => WithdrawBars(w, t, r);
    case OfMark(t) => MarkBars(w, t, r);
    case OfFinish(t) => FinishBars(w, t, r);
    case OfRecovery(t) => RecoveryBars(w, t, r);
  }

  lemma {:induction false} RunKeeps(w: World, steps: seq<Step>, v: World)
    requires Inv(w) && Reports(w) && Reaches(w, steps, v)
    ensures Inv(v) && Reports(v)
    decreases |steps|
  {
    if steps == [] {
    } else {
      StepKeeps(w, steps[0]);
      StepTells(w, steps[0]);
      RunKeeps(Apply(w, steps[0]), steps[1..], v);
    }
  }

  lemma {:induction false} RunBars(w: World, steps: seq<Step>, v: World, r: Request)
    requires Inv(w) && Reports(w) && Reaches(w, steps, v) && CannotRun(w, r)
    ensures CannotRun(v, r)
    decreases |steps|
  {
    if steps == [] {
    } else {
      StepKeeps(w, steps[0]);
      StepTells(w, steps[0]);
      StepBars(w, steps[0], r);
      RunBars(Apply(w, steps[0]), steps[1..], v, r);
    }
  }

  /**
    Single request in flight: in every reachable state, across crashes, expiries, reclaims and failed
    journal writes, a request that sits in `command.lua`, is claimed, or runs without its response
    being out is the journaled pending request, so there is never a second one.
   */
  lemma SingleRequestInFlight(init: World, steps: seq<Step>, w: World, r: Request)
    requires Init(init) && Reaches(init, steps, w) && InFlight(w, r)
    ensures Pending(w) == Some(r)
    ensures forall other :: InFlight(w, other) ==> other == r
  {
    InitEstablishes(init);
    RunKeeps(init, steps, w);
  }

  /** Over any interleaving of host, bridge and outside steps a request is executed at most once. */
  lemma ExecutedAtMostOnce(init: World, steps: seq<Step>, w: World, r: Request)
    requires Init(init) && Reaches(init, steps, w)
    ensures w.log.executed[r] <= 1
    ensures w.log.executed[r] == 1 ==> r in w.log.published
  {
    InitEstablishes(init);
    RunKeeps(init, steps, w);
  }

  /**
    Withdrawal excludes execution: once the worker has verified the file it moved away, no
    continuation executes the request, whether or not the private file could be unlinked.
   */
  lemma WithdrawalExcludesExecution(init: World, steps: seq<Step>, w: World, more: seq<Step>, v: World)
    requires Init(init) && Reaches(init, steps, w) && Reaches(w, more, v)
    requires w.worker.Some? && (w.worker.value.pc.WithdrawVerified? || w.worker.value.pc.WithdrawDropped?)
    ensures v.log.executed[w.worker.value.pc.request] == 0
  {
    InitEstablishes(init);
    RunKeeps(init, steps, w);
    RunBars(w, more, v, w.worker.value.pc.request);
  }

  /**
    Outcome soundness end to end. `not_executed` holds in every continuation and `completed` means the
    handler returned normally, for every way `send_command` can end except the three singled out below:
    a fence met while polling, a fence met while its own transaction finishes, and a late outermost exit.
   */
  lemma OutcomesAreSound(init: World, steps: seq<Step>, w: World, p: Report, more: seq<Step>, v: World)
    requires Init(init) && Reaches(init, steps, w) && Reaches(w, more, v) && p in w.log.reports
    ensures p.outcome == NotExecuted && !MetFence(p.exit) ==> v.log.executed[p.request] == 0
    ensures p.outcome == Completed && p.exit != LateExit ==>
              p.request in w.log.returned && w.log.executed[p.request] == 1
  {
    InitEstablishes(init);
    RunKeeps(init, steps, w);
    if CannotRun(w, p.request) {
      RunBars(w, more, v, p.request);
    }
    assert SoundReport(w, p);
  }

  // ----- Exactly when a request may still run -----

  ghost predicate MayExecute(w: World, r: Request) {
    exists steps, v :: Reaches(w, steps, v) && v.log.executed[r] > 0
  }

  lemma {:induction false} DeadRunKeeps(w: World, steps: seq<Step>, v: World, r: Request)
    requires Inv(w) && Reaches(w, steps, v) && w.bridge.Dead?
    ensures v.bridge.Dead? && v.log.executed[r] == w.log.executed[r]
    decreases |steps|
  {
    if steps == [] {
    } else {
      StepKeeps(w, steps[0]);
      DeadStaysDead(w, steps[0]);
      DeadRunKeeps(Apply(w, steps[0]), steps[1..], v, r);
    }
  }

  lemma DeadStaysDead(w: World, s: Step)
    requires Enabled(w, s) && w.bridge.Dead?
    ensures Apply(w, s).bridge.Dead? && Apply(w, s).log.executed == w.log.executed
  {
    match s
    case OfBridge(_) =>
    case OfEntry(t) => EntryFrame(w, t);
    case OfStaging(t) => StagingFrame(w, t);
    case OfPublish(t) => PublishFrame(w, t);
    case OfPoll(t) => PollFrame(w, t);
    case OfWithdraw(t) => WithdrawFrame(w, t);
    case OfMark(t) => MarkFrame(w, t);
    case OfFinish(t) => FinishFrame(w, t);
    case OfRecovery(t) => RecoveryFrame(w, t);
  }

  lemma DeadBridgeRunsNothing(w: World, r: Request)
    requires Inv(w) && w.bridge.Dead? && w.log.executed[r] == 0
    ensures !MayExecute(w, r)
  {
    forall steps, v | Reaches(w, steps, v)
      ensures v.log.executed[r] == 0
    {
      DeadRunKeeps(w, steps, v, r);
    }
  }

  /** A one-step run. */
  lemma Follow(w: World, s: Step, steps: seq<Step>, v: World)
    requires Enabled(w, s) && Reaches(Apply(w, s), steps, v)
    ensures Reaches(w, [s] + steps, v)
  {
    assert ([s] + steps)[1..] == steps;
  }

  /** A claim handshake bridge that is idle runs whatever waits. */
  lemma IdleBridgeRuns(w: World, r: Request)
    requires w.bridge.Idle? && Waiting(w) == Some(r)
    ensures MayExecute(w, r)
  {
    var u := Apply(w, OfBridge(Claim));
    var v := Apply(u, OfBridge(Start));
    Follow(u, OfBridge(Start), [], v);
    Follow(w, OfBridge(Claim), [OfBridge(Start)] + [], v);
  }

  lemma Precede(w: World, s: Step, r: Request)
    requires Enabled(w, s) && MayExecute(Apply(w, s), r)
    ensures MayExecute(w, r)
  {
    var steps, v :| Reaches(Apply(w, s), steps, v) && v.log.executed[r] > 0;
    Follow(w, s, steps, v);
  }

  lemma ReplyingBridgeRuns(w: World, r: Request)
    requires w.bridge.Replying? && Waiting(w) == Some(r)
    ensures MayExecute(w, r)
  {
    IdleBridgeRuns(Apply(w, OfBridge(Respond(true))), r);
    Precede(w, OfBridge(Respond(true)), r);
  }

  lemma ExecutingBridgeRuns(w: World, r: Request)
    requires w.bridge.Executing? && Waiting(w) == Some(r)
    ensures MayExecute(w, r)
  {
    var s := OfBridge(Return(Returned, true, true));
    ReplyingBridgeRuns(Apply(w, s), r);
    Precede(w, s, r);
  }

  lemma ClaimedBridgeRuns(w: World, r: Request)
    requires w.bridge.Claimed? && w.renames && Waiting(w) == Some(r)
    ensures MayExecute(w, r)
  {
    ExecutingBridgeRuns(Apply(w, OfBridge(Start)), r);
    Precede(w, OfBridge(Start), r);
  }

  lemma ClaimedRequestRuns(w: World, r: Request)
    requires w.bridge.Claimed? && w.bridge.command.request == Some(r)
    ensures MayExecute(w, r)
  {
    Follow(w, OfBridge(Start), [], Apply(w, OfBridge(Start)));
  }

  /**
    A bridge without the claim handshake has another command in hand and will remove whatever lies at
    `command.lua` when it starts it.
   */
  predicate Doomed(w: World, r: Request) {
    && !w.renames && w.bridge.Claimed? && w.bridge.command.request != Some(r)
    && Waiting(w) == Some(r) && r in w.log.published && w.log.executed[r] == 0
  }

  predicate Barred(w: World, r: Request) {
    CannotRun(w, r) || Doomed(w, r)
  }

  lemma LegacyNeverWithdraws(w: World, s: WithdrawStep)
    requires Inv(w) && !w.renames
    ensures !WithdrawEnabled(w, s)
  { }

  lemma DoomedByBridge(w: World, s: BridgeStep, r: Request)
    requires Inv(w) && BridgeEnabled(w, s) && Doomed(w, r)
    ensures Barred(BridgeApply(w, s), r)
  { }

  lemma DoomedByEntry(w: World, s: EntryStep, r: Request)
    requires Inv(w) && EntryEnabled(w, s) && Doomed(w, r)
    ensures Barred(EntryApply(w, s), r)
  { }

  lemma DoomedByPoll(w: World, s: PollStep, r: Request)
    requires Inv(w) && PollEnabled(w, s) && Doomed(w, r)
    ensures Barred(PollApply(w, s), r)
  { }

  lemma DoomedByMark(w: World, s: MarkStep, r: Request)
    requires Inv(w) && MarkEnabled(w, s) && Doomed(w, r)
    ensures Barred(MarkApply(w, s), r)
  { }

  lemma DoomedByRecovery(w: World, s: RecoveryStep, r: Request)
    requires Inv(w) && RecoveryEnabled(w, s) && Doomed(w, r)
    ensures Barred(RecoveryApply(w, s), r)
  { }

  lemma DoomedByPublish(w: World, s: PublishStep, r: Request)
    requires Inv(w) && PublishEnabled(w, s) && Doomed(w, r)
    ensures Barred(PublishApply(w, s), r)
  {
    PublishFrame(w, s);
  }

  lemma DoomedByFinish(w: World, s: FinishStep, r: Request)
    requires Inv(w) && FinishEnabled(w, s) && Doomed(w, r)
    ensures Barred(FinishApply(w, s), r)
  { }

  lemma StepBarsDoomed(w: World, s: Step, r: Request)
    requires Inv(w) && Enabled(w, s) && Doomed(w, r)
    ensures Barred(Apply(w, s), r)
  {
    match s
    case OfBridge(t) => DoomedByBridge(w, t, r);
    case OfEntry(t) => DoomedByEntry(w, t, r);
    case OfStaging(t) => StagingFrame(w, t);
    case OfPublish(t) => DoomedByPublish(w, t, r);
    case OfPoll(t) => DoomedByPoll(w, t, r);
    case OfWithdraw(t) => LegacyNeverWithdraws(w, t);
    case OfMark(t) => DoomedByMark(w, t, r);
    case OfFinish(t) => DoomedByFinish(w, t, r);
    case OfRecovery(t) => DoomedByRecovery(w, t, r);
  }

  lemma {:induction false} RunStaysBarred(w: World, steps: seq<Step>, v: World, r: Request)
    requires Inv(w) && Reaches(w, steps, v) && Barred(w, r)
    ensures v.log.executed[r] == 0
    decreases |steps|
  {
    if steps == [] {
    } else {
      StepKeeps(w, steps[0]);
      if CannotRun(w, r) {
        StepBars(w, steps[0], r);
      } else {
        StepBarsDoomed(w, steps[0], r);
      }
      RunStaysBarred(Apply(w, steps[0]), steps[1..], v, r);
    }
  }

  /**
    `Barred` is exact: once a request is published to a started bridge of either kind, some continuation
    has it executed if and only if the files and the bridge do not already rule that out.
   */
  lemma RunsExactlyUnlessBarred(w: World, r: Request)
    requires Inv(w) && r in w.log.published && !w.bridge.NotStarted?
    ensures MayExecute(w, r) <==> !Barred(w, r)
  {
    if Barred(w, r) {
      forall steps, v | Reaches(w, steps, v)
        ensures v.log.executed[r] == 0
      {
        RunStaysBarred(w, steps, v, r);
      }
    } else if w.log.executed[r] > 0 {
      assert Reaches(w, [], w);
    } else if w.bridge.Claimed? && w.bridge.command.request == Some(r) {
      ClaimedRequestRuns(w, r);
    } else {
      match w.bridge
      case Idle => IdleBridgeRuns(w, r);
      case Claimed(_) => ClaimedBridgeRuns(w, r);
      case Executing(_) => ExecutingBridgeRuns(w, r);
      case Replying(_) => ReplyingBridgeRuns(w, r);
      case _ =>
    }
  }

  // ----- The three ways a reported outcome can be wrong -----

  /** Whoever carries a correlated response carries it for a request that was executed, exactly once. */
  lemma AnsweredMeansExecuted(init: World, steps: seq<Step>, w: World)
    requires Init(init) && Reaches(init, steps, w)
    requires w.worker.Some? && Carried(w.worker.value.pc).Some?
    ensures var answer := Carried(w.worker.value.pc).value;
            && w.log.executed[answer.request] == 1
            && (HostOutcome(answer.response) == Completed <==> answer.request in w.log.returned)
            && HostOutcome(answer.response) != NotExecuted
  {
    InitEstablishes(init);
    RunKeeps(init, steps, w);
  }

  /**
    A `send_command` that already has its response, and finds the session fenced when its own transaction
    finishes, raises `not_executed`. That label is never right: the request was executed.
   */
  lemma FencedFinishLabelIsNeverRight(init: World, steps: seq<Step>, w: World)
    requires Init(init) && Reaches(init, steps, w) && FinishEnabled(w, FinishFenced)
    ensures var r := w.worker.value.pc.request;
            && Report(r, FencedWhileFinishing, NotExecuted) in FinishApply(w, FinishFenced).log.reports
            && w.log.executed[r] == 1
            && (r in w.log.returned <==> HostOutcome(w.worker.value.pc.response) == Completed)
  {
    AnsweredMeansExecuted(init, steps, w);
  }

  /**
    An outermost `send_command` whose deadline expires while its scope closes reports `completed`.
    That is right if and only if the response it already holds says the handler returned normally.
   */
  lemma LateExitRightExactlyWhenReturned(init: World, steps: seq<Step>, w: World, s: Step)
    requires Init(init) && Reaches(init, steps, w) && Enabled(w, s)
    requires || s == OfPoll(Complete(Clean, LateExit))
             || (s == OfFinish(FinishRetire(Clean, LateExit)) && w.worker.value.pc.answer.Some?)
    ensures w.worker.Some? && Carried(w.worker.value.pc).Some?
    ensures var answer := Carried(w.worker.value.pc).value;
            && Report(answer.request, LateExit, Completed) in Apply(w, s).log.reports
            && (answer.request in w.log.returned <==> HostOutcome(answer.response) == Completed)
  {
    AnsweredMeansExecuted(init, steps, w);
  }
}
