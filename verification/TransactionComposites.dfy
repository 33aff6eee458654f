/** A composite that sent a command is started in the journal, and from then on nobody else may replace it. */
module TransactionComposites {
  import opened Basics
  import opened BridgeReply
  import opened TransactionWorld
  import opened TransactionProtocol
  import opened TransactionFrames
  import opened TransactionInvariant
  import opened TransactionSafety
  import opened TransactionFences

  // ----- A pending request means a started operation -----

  /** The request a worker has journaled and still deals with. */
  function Asks(pc: Pc): Option<Request> {
    match pc
    case PublishJournaled(r) => Some(r)
    case PublishCleared(r) => Some(r)
    case PublishReady(r) => Some(r)
    case PublishUnwritten(r) => Some(r)
    case PublishWritten(r) => Some(r)
    case Polling(r) => Some(r)
    case Expired(r) => Some(r)
    case WithdrawOpened(r, _) => Some(r)
    case WithdrawMoved(r, _, _) => Some(r)
    case WithdrawVerified(r, _) => Some(r)
    case WithdrawDropped(r) => Some(r)
    case _ => None
  }

  /**
    A pending request belongs to a started operation, as `_read_state` demands of a journal, and it is the one
    that the worker deals with.
   */
  predicate PendingIsStarted(w: World) {
    Pending(w).Some? ==>
      && Op(w).started
      && (w.worker.Some? && Asks(w.worker.value.pc).Some? ==> Asks(w.worker.value.pc) == Pending(w))
  }

  lemma BridgeKeepsStarted(w: World, s: BridgeStep)
    requires PendingIsStarted(w) && BridgeEnabled(w, s)
    ensures PendingIsStarted(BridgeApply(w, s))
  {
    BridgeFrame(w, s);
  }

  lemma EntryKeepsStarted(w: World, s: EntryStep)
    requires PendingIsStarted(w) && EntryEnabled(w, s)
    ensures PendingIsStarted(EntryApply(w, s))
  { }

  lemma StagingKeepsStarted(w: World, s: StagingStep)
    requires PendingIsStarted(w) && StagingEnabled(w, s)
    ensures PendingIsStarted(StagingApply(w, s))
  { }

  lemma PublishKeepsStarted(w: World, s: PublishStep)
    requires PendingIsStarted(w) && PublishEnabled(w, s)
    ensures PendingIsStarted(PublishApply(w, s))
  { }

  lemma PollKeepsStarted(w: World, s: PollStep)
    requires PendingIsStarted(w) && PollEnabled(w, s)
    ensures PendingIsStarted(PollApply(w, s))
  { }

  lemma WithdrawKeepsStarted(w: World, s: WithdrawStep)
    requires PendingIsStarted(w) && WithdrawEnabled(w, s)
    ensures PendingIsStarted(WithdrawApply(w, s))
  { }

  lemma MarkKeepsStarted(w: World, s: MarkStep)
    requires PendingIsStarted(w) && MarkEnabled(w, s)
    ensures PendingIsStarted(MarkApply(w, s))
  { }

  lemma FinishKeepsStarted(w: World, s: FinishStep)
    requires Inv(w) && PendingIsStarted(w) && FinishEnabled(w, s)
    ensures PendingIsStarted(FinishApply(w, s))
  { }

  lemma RecoveryKeepsStarted(w: World, s: RecoveryStep)
    requires PendingIsStarted(w) && RecoveryEnabled(w, s)
    ensures PendingIsStarted(RecoveryApply(w, s))
  { }

  lemma StepKeepsStarted(w: World, s: Step)
    requires Inv(w) && PendingIsStarted(w) && Enabled(w, s)
    ensures PendingIsStarted(Apply(w, s))
  {
    match s
    case OfBridge(t) => BridgeKeepsStarted(w, t);
    case OfEntry(t) => EntryKeepsStarted(w, t);
    case OfStaging(t) => StagingKeepsStarted(w, t);
    case OfPublish(t) => PublishKeepsStarted(w, t);
    case OfPoll(t) => PollKeepsStarted(w, t);
    case OfWithdraw(t) => WithdrawKeepsStarted(w, t);
    case OfMark(t) => MarkKeepsStarted(w, t);
    case OfFinish(t) => FinishKeepsStarted(w, t);
    case OfRecovery(t) => RecoveryKeepsStarted(w, t);
  }

  lemma {:induction false} RunKeepsStarted(w: World, steps: seq<Step>, v: World)
    requires Inv(w) && PendingIsStarted(w) && Reaches(w, steps, v)
    ensures PendingIsStarted(v)
    decreases |steps|
  {
    if steps == [] {
    } else {
      StepKeeps(w, steps[0]);
      StepKeepsStarted(w, steps[0]);
      RunKeepsStarted(Apply(w, steps[0]), steps[1..], v);
    }
  }

  /** In every reachable state, an operation with a pending request is started. */
  lemma PendingMeansStarted(init: World, steps: seq<Step>, w: World)
    requires Init(init) && Reaches(init, steps, w) && Pending(w).Some?
    ensures Op(w).started
  {
    InitEstablishes(init);
    RunKeepsStarted(init, steps, w);
  }

  // ----- A started composite stays -----

  /** The steps that can end a started composite: the end of the operation by its own worker, and of a recovery. */
  predicate MayEnd(s: Step) {
    || (s.OfFinish? && (s.finish.FinishRetire? || s.finish.Rollback? || s.finish.RollbackFails?))
    || (s.OfRecovery? && s.recovery.RecoverFinish?)
  }

  /** The step takes this request back: it expired before it was visible, or it was withdrawn. */
  predicate TakesBack(w: World, s: Step, r: Request) {
    && ((s.OfPublish? && s.publish.UndoPending?) || (s.OfWithdraw? && s.withdraw.UndoWithdrawn?))
    && w.worker.Some? && Asks(w.worker.value.pc) == Some(r)
  }

  /** A run in which the operation is not ended and this request is not taken back; later ones may be. */
  ghost predicate KeepsAtIt(w: World, steps: seq<Step>, r: Request)
    decreases |steps|
  {
    steps != [] ==>
      Enabled(w, steps[0]) && !MayEnd(steps[0]) && !TakesBack(w, steps[0], r)
      && KeepsAtIt(Apply(w, steps[0]), steps[1..], r)
  }

  /**
    The journal holds this composite, started, nobody is about to undo a retirement, and a request other than `r`
    was journaled when the composite had been started already.
   */
  predicate RunningComposite(w: World, id: nat, r: Request) {
    && HasOperation(w) && Op(w).id == id && Op(w).composite && Op(w).started
    && (w.worker.Some? ==>
          && !w.worker.value.pc.FinishUndo?
          && (Asks(w.worker.value.pc).Some? && Asks(w.worker.value.pc) != Some(r) ==>
                w.worker.value.pendingStarted == Some(true)))
  }

  lemma BridgeLeavesComposite(w: World, s: BridgeStep, id: nat, r: Request)
    requires BridgeEnabled(w, s) && RunningComposite(w, id, r)
    ensures RunningComposite(BridgeApply(w, s), id, r)
  {
    BridgeFrame(w, s);
  }

  lemma StagingLeavesComposite(w: World, s: StagingStep, id: nat, r: Request)
    requires StagingEnabled(w, s) && RunningComposite(w, id, r)
    ensures RunningComposite(StagingApply(w, s), id, r)
  {
    StagingJournal(w, s);
  }

  lemma EntryLeavesComposite(w: World, s: EntryStep, id: nat, r: Request)
    requires Inv(w) && EntryEnabled(w, s) && RunningComposite(w, id, r)
    ensures RunningComposite(EntryApply(w, s), id, r)
  {
    CompositeSurvivesEntry(w, s);
  }

  lemma PublishLeavesComposite(w: World, s: PublishStep, id: nat, r: Request)
    requires PublishEnabled(w, s) && RunningComposite(w, id, r) && !TakesBack(w, OfPublish(s), r)
    ensures RunningComposite(PublishApply(w, s), id, r)
  { }

  lemma PollLeavesComposite(w: World, s: PollStep, id: nat, r: Request)
    requires PollEnabled(w, s) && RunningComposite(w, id, r)
    ensures RunningComposite(PollApply(w, s), id, r)
  { }

  lemma WithdrawLeavesComposite(w: World, s: WithdrawStep, id: nat, r: Request)
    requires WithdrawEnabled(w, s) && RunningComposite(w, id, r) && !TakesBack(w, OfWithdraw(s), r)
    ensures RunningComposite(WithdrawApply(w, s), id, r)
  { }

  lemma MarkLeavesComposite(w: World, s: MarkStep, id: nat, r: Request)
    requires MarkEnabled(w, s) && RunningComposite(w, id, r)
    ensures RunningComposite(MarkApply(w, s), id, r)
  { }

  lemma FinishLeavesComposite(w: World, s: FinishStep, id: nat, r: Request)
    requires Inv(w) && FinishEnabled(w, s) && RunningComposite(w, id, r) && !MayEnd(OfFinish(s))
    ensures RunningComposite(FinishApply(w, s), id, r)
  { }

  lemma RecoveryLeavesComposite(w: World, s: RecoveryStep, id: nat, r: Request)
    requires RecoveryEnabled(w, s) && RunningComposite(w, id, r) && !s.RecoverFinish?
    ensures RunningComposite(RecoveryApply(w, s), id, r)
  { }

  lemma StepLeavesComposite(w: World, s: Step, id: nat, r: Request)
    requires Inv(w) && Enabled(w, s) && RunningComposite(w, id, r) && !MayEnd(s) && !TakesBack(w, s, r)
    ensures RunningComposite(Apply(w, s), id, r)
  {
    match s
    case OfBridge(t) => BridgeLeavesComposite(w, t, id, r);
    case OfEntry(t) => EntryLeavesComposite(w, t, id, r);
    case OfStaging(t) => StagingLeavesComposite(w, t, id, r);
    case OfPublish(t) => PublishLeavesComposite(w, t, id, r);
    case OfPoll(t) => PollLeavesComposite(w, t, id, r);
    case OfWithdraw(t) => WithdrawLeavesComposite(w, t, id, r);
    case OfMark(t) => MarkLeavesComposite(w, t, id, r);
    case OfFinish(t) => FinishLeavesComposite(w, t, id, r);
    case OfRecovery(t) => RecoveryLeavesComposite(w, t, id, r);
  }

  lemma {:induction false} RunLeavesComposite(w: World, steps: seq<Step>, v: World, id: nat, r: Request)
    requires Inv(w) && Reaches(w, steps, v) && RunningComposite(w, id, r) && KeepsAtIt(w, steps, r)
    ensures RunningComposite(v, id, r)
    decreases |steps|
  {
    if steps == [] {
    } else {
      StepKeeps(w, steps[0]);
      StepLeavesComposite(w, steps[0], id, r);
      RunLeavesComposite(Apply(w, steps[0]), steps[1..], v, id, r);
    }
  }

  /**
    Once a composite has a request in its journal, its entry stays started along every run in which that request is
    not taken back, and no response that may arrive lets another worker reclaim it, until its own worker or a
    recovery ends it. What becomes of later requests, or of the worker, does not matter.
   */
  lemma SentCompositeIsNeverReclaimed(init: World, steps: seq<Step>, w: World, more: seq<Step>, v: World)
    requires Init(init) && Reaches(init, steps, w) && Reaches(w, more, v)
    requires Pending(w).Some? && Op(w).composite && KeepsAtIt(w, more, Pending(w).value)
    ensures HasOperation(v) && Op(v).id == Op(w).id && Op(v).started
    ensures forall response :: !Reclaimable(Op(v), response)
  {
    InitEstablishes(init);
    RunKeeps(init, steps, w);
    RunKeepsStarted(init, steps, w);
    RunLeavesComposite(w, more, v, Op(w).id, Pending(w).value);
  }
}
