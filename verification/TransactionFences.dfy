/**
  Properties of the journal and of the files around it: the recovery fence is permanent, interrupted
  composites stay fenced, staging files outlive their writers, publication is undone exactly, and
  withdrawal never destroys a command some other program wrote.
 */
module TransactionFences {
  import opened Basics
  import opened BridgeReply
  import opened TransactionWorld
  import opened TransactionProtocol
  import opened TransactionInvariant
  import opened TransactionFrames
  import opened TransactionSafety

  // ----- Recovery -----

  /** What a fenced directory can still change into. */
  ghost predicate StaysFenced(w: World, v: World)
    requires IsFenced(w)
  {
    && IsFenced(v)
    && v.journal.value.generation == w.journal.value.generation
    && v.log.published == w.log.published
    && (w.bridge.NotStarted? || w.bridge.Dead? ==> v.bridge.NotStarted? || v.bridge.Dead?)
    && (HasOperation(v) ==> HasOperation(w) && Op(v).id == Op(w).id)
  }

  /**
    One step inside the fence: it stays up, nothing is published, nothing is admitted, no emulator is
    started, and only recovery itself still writes the journal.
   */
  lemma FenceHolds(w: World, s: Step)
    requires Inv(w) && Enabled(w, s) && IsFenced(w)
    ensures StaysFenced(w, Apply(w, s))
    ensures !s.OfRecovery? ==> Apply(w, s).journal == w.journal
  {
    match s
    case OfBridge(t) => BridgeFrame(w, t);
    case OfEntry(t) =>
      FenceStopsEntry(w, t);
      EntryFrame(w, t);
      EntryJournal(w, t);
    case OfStaging(t) =>
      FenceStopsStaging(w, t);
      StagingFrame(w, t);
    case OfPublish(t) => FenceStopsPublish(w, t);
    case OfPoll(t) =>
      FencePoll(w, t);
      PollFrame(w, t);
    case OfWithdraw(t) => FenceStopsWithdraw(w, t);
    case OfMark(t) => FenceStopsMark(w, t);
    case OfFinish(t) =>
      FenceStopsFinish(w, t);
      FinishFrame(w, t);
    case OfRecovery(t) =>
      RecoveryFrame(w, t);
      RecoveryJournal(w, t);
  }

  lemma FencePoll(w: World, s: PollStep)
    requires PollEnabled(w, s) && IsFenced(w)
    ensures PollApply(w, s).journal == w.journal
  { }

  lemma FenceStopsEntry(w: World, s: EntryStep)
    requires Inv(w) && EntryEnabled(w, s) && IsFenced(w)
    ensures !s.Admit? && !s.Reclaim? && !s.Initialise?
  { }

  lemma FenceStopsStaging(w: World, s: StagingStep)
    requires Inv(w) && StagingEnabled(w, s) && IsFenced(w)
    ensures s.Sweep? && StagingApply(w, s).journal == w.journal
  { }

  lemma FenceStopsPublish(w: World, s: PublishStep)
    requires Inv(w) && PublishEnabled(w, s) && IsFenced(w)
    ensures s.RefusePublish?
    ensures StaysFenced(w, PublishApply(w, s)) && PublishApply(w, s).journal == w.journal
  { }

  lemma FenceStopsWithdraw(w: World, s: WithdrawStep)
    requires Inv(w) && IsFenced(w)
    ensures !WithdrawEnabled(w, s)
  { }

  lemma FenceStopsMark(w: World, s: MarkStep)
    requires Inv(w) && IsFenced(w)
    ensures !MarkEnabled(w, s)
  { }

  lemma FenceStopsFinish(w: World, s: FinishStep)
    requires Inv(w) && FinishEnabled(w, s) && IsFenced(w)
    ensures s.FinishFenced? || s.FinishFails?
    ensures FinishApply(w, s).journal == w.journal
  { }

  /**
    The recovery fence is permanent: from the moment `stopping` is journaled, in every continuation the
    state is stopping or stopped, no command is published and no new operation is in the journal.
   */
  lemma {:induction false} FenceIsPermanent(w: World, steps: seq<Step>, v: World)
    requires Inv(w) && Reports(w) && IsFenced(w) && Reaches(w, steps, v)
    ensures IsFenced(v) && v.log.published == w.log.published
    ensures v.journal.value.generation == w.journal.value.generation
    ensures HasOperation(v) ==> HasOperation(w) && Op(v).id == Op(w).id
    ensures w.bridge.NotStarted? || w.bridge.Dead? ==> v.bridge.NotStarted? || v.bridge.Dead?
    decreases |steps|
  {
    if steps == [] {
    } else {
      FenceHolds(w, steps[0]);
      StepKeeps(w, steps[0]);
      StepTells(w, steps[0]);
      FenceIsPermanent(Apply(w, steps[0]), steps[1..], v);
    }
  }

  /** A bridge that was not started before the fence is never started after it. */
  lemma {:induction false} UnstartedStaysUnstarted(w: World, steps: seq<Step>, v: World, r: Request)
    requires Inv(w) && IsFenced(w) && (w.bridge.NotStarted? || w.bridge.Dead?) && Reaches(w, steps, v)
    ensures v.log.executed[r] == w.log.executed[r]
    decreases |steps|
  {
    if steps == [] {
    } else {
      FenceHolds(w, steps[0]);
      UnstartedStep(w, steps[0]);
      StepKeeps(w, steps[0]);
      UnstartedStaysUnstarted(Apply(w, steps[0]), steps[1..], v, r);
    }
  }

  lemma UnstartedStep(w: World, s: Step)
    requires Enabled(w, s) && (w.bridge.NotStarted? || w.bridge.Dead?)
    ensures Apply(w, s).log.executed == w.log.executed
  {
    match s
    case OfBridge(_) =>
    case OfEntry(t) => EntryFrame(w, t);
    case OfStaging(t) => StagingFrame(w, t);
    case OfPublish(t) => PublishFrame(w, t);
    case OfPoll(t) => PollFrame(w, t);
    case OfWithdraw(t) => WithdrawFrame(w, t);
    case OfMark(t) => MarkFrame(w, t);
    case OfFinish(t) => FinishFrame(w, t);
    case OfRecovery(t) => RecoveryFrame(w, t);
  }

  /** Nothing that can still happen behind the fence executes this request. */
  predicate CannotRunBehindFence(w: World, r: Request) {
    Barred(w, r) || (w.bridge.NotStarted? && w.log.executed[r] == 0)
  }

  lemma UnstartedNeverRuns(w: World, r: Request)
    requires Inv(w) && IsFenced(w) && w.bridge.NotStarted?
    ensures MayExecute(w, r) <==> w.log.executed[r] > 0
  {
    forall more, u | Reaches(w, more, u)
      ensures u.log.executed[r] == w.log.executed[r]
    {
      UnstartedStaysUnstarted(w, more, u, r);
    }
    assert Reaches(w, [], w);
  }

  lemma UnpublishedIsBarred(w: World, r: Request)
    requires Inv(w) && r in w.log.issued && r !in w.log.published
    requires w.worker.Some? ==> !BeforeWrite(w.worker.value.pc)
    ensures Barred(w, r)
  { }

  /** Behind the fence, an issued request may still run exactly unless the files and the bridge rule it out. */
  lemma RunsBehindFenceExactly(w: World, r: Request)
    requires Inv(w) && IsFenced(w) && r in w.log.issued
    requires w.worker.Some? ==> !BeforeWrite(w.worker.value.pc)
    ensures MayExecute(w, r) <==> !CannotRunBehindFence(w, r)
  {
    if r !in w.log.published {
      UnpublishedIsBarred(w, r);
      forall more, u | Reaches(w, more, u)
        ensures u.log.executed[r] == 0
      {
        RunStaysBarred(w, more, u, r);
      }
    } else if w.bridge.NotStarted? {
      UnstartedNeverRuns(w, r);
    } else {
      RunsExactlyUnlessBarred(w, r);
    }
  }

  /**
    A worker that finds the session fenced while it polls raises `not_executed`. That label is right in
    every continuation if and only if the request can no longer run when the fence is seen: it is barred,
    or the emulator was never started and the request never ran.
   */
  lemma FencedLabelRightExactlyWhenBarred(init: World, steps: seq<Step>, w: World)
    requires Init(init) && Reaches(init, steps, w) && PollEnabled(w, SeeFence)
    ensures var r := w.worker.value.pc.request;
            var v := PollApply(w, SeeFence);
            && Report(r, FencedWhilePolling, NotExecuted) in v.log.reports
            && (!MayExecute(v, r) <==> CannotRunBehindFence(w, r))
  {
    InitEstablishes(init);
    RunKeeps(init, steps, w);
    var r := w.worker.value.pc.request;
    var v := PollApply(w, SeeFence);
    assert v == Apply(w, OfPoll(SeeFence));
    StepKeeps(w, OfPoll(SeeFence));
    RunsBehindFenceExactly(v, r);
    assert Barred(v, r) <==> Barred(w, r);
  }

  /**
    A transaction whose body ended normally, a composite for example, raises `not_executed` when its exit
    finds the session fenced. For whichever requests it `sent`, the label is right in every continuation if
    and only if each of them is ruled out; one that was reported as completed makes it wrong.
   */
  lemma FencedExitLabelRightExactly(init: World, steps: seq<Step>, w: World, sent: set<Request>)
    requires Init(init) && Reaches(init, steps, w) && IsFenced(w) && sent <= w.log.issued
    requires w.worker.Some? ==> !BeforeWrite(w.worker.value.pc)
    ensures (forall r :: r in sent ==> !MayExecute(w, r)) <==> (forall r :: r in sent ==> CannotRunBehindFence(w, r))
    ensures forall p :: p in w.log.reports && p.request in sent && p.outcome == Completed && p.exit != LateExit ==>
              MayExecute(w, p.request) && !CannotRunBehindFence(w, p.request)
  {
    InitEstablishes(init);
    RunKeeps(init, steps, w);
    forall r | r in sent
      ensures MayExecute(w, r) <==> !CannotRunBehindFence(w, r)
    {
      RunsBehindFenceExactly(w, r);
    }
    forall p | p in w.log.reports && p.request in sent && p.outcome == Completed && p.exit != LateExit
      ensures MayExecute(w, p.request)
    {
      assert SoundReport(w, p);
      assert Reaches(w, [], w);
    }
  }

  // ----- Composites -----

  predicate StartedComposite(w: World) {
    HasOperation(w) && Op(w).composite && Op(w).started
  }

  /**
    A started composite leaves the journal only when its own worker retires it without failure, when
    its own worker rolls its new directory back and the journal itself is gone, or when recovery finishes; a
    reclaim never takes it, even with a matching response.
   */
  lemma CompositeLeavesOnlyByItsOwner(w: World, s: Step)
    requires Inv(w) && Enabled(w, s) && StartedComposite(w)
    requires !HasOperation(Apply(w, s)) || Op(Apply(w, s)).id != Op(w).id
    ensures || (s.OfFinish? && (s.finish.FinishRetire? || s.finish.Rollback? || s.finish.RollbackFails?))
            || (s.OfRecovery? && s.recovery.RecoverFinish?)
    ensures s.OfFinish? ==> w.worker.Some? && w.worker.value.id == Op(w).id
    ensures s.OfFinish? && s.finish.FinishRetire? ==> w.worker.value.pc.Finishing? && !w.worker.value.pc.failed
    ensures s.OfFinish? && !s.finish.FinishRetire? ==> w.worker.value.created && Apply(w, s).journal.None?
  {
    match s
    case OfBridge(t) => BridgeFrame(w, t);
    case OfEntry(t) => CompositeSurvivesEntry(w, t);
    case OfStaging(t) => StagingJournal(w, t);
    case OfPublish(t) => PublishJournal(w, t);
    case OfPoll(t) => PollJournal(w, t);
    case OfWithdraw(t) => WithdrawJournal(w, t);
    case OfMark(t) => MarkJournal(w, t);
    case OfFinish(t) => CompositeFinish(w, t);
    case OfRecovery(t) => RecoveryJournal(w, t);
  }

  lemma CompositeFinish(w: World, s: FinishStep)
    requires Inv(w) && FinishEnabled(w, s) && StartedComposite(w)
    ensures var v := FinishApply(w, s);
            || (HasOperation(v) && Op(v).id == Op(w).id)
            || (&& w.worker.Some? && w.worker.value.id == Op(w).id
                && ((s.FinishRetire? && w.worker.value.pc.Finishing? && !w.worker.value.pc.failed)
                    || ((s.Rollback? || s.RollbackFails?) && w.worker.value.created && v.journal.None?)))
  { }

  lemma CompositeSurvivesEntry(w: World, s: EntryStep)
    requires Inv(w) && EntryEnabled(w, s) && StartedComposite(w)
    ensures EntryApply(w, s).journal == w.journal && !s.Reclaim?
  { }

  /** The worker that started this composite is gone. */
  predicate Abandoned(w: World, id: nat) {
    && StartedComposite(w) && Op(w).id == id && id < w.next.operation
    && (w.worker.Some? ==> w.worker.value.pc.Entering?)
  }

  predicate Retired(w: World) {
    IsFenced(w) && !HasOperation(w)
  }

  /**
    An abandoned composite stays in the journal, whatever later workers try, until recovery retires the
    session for good; meanwhile nothing is published.
   */
  lemma {:induction false} AbandonedCompositeStaysFenced(w: World, id: nat, steps: seq<Step>, v: World)
    requires Inv(w) && Reports(w) && Reaches(w, steps, v)
    requires Abandoned(w, id) || (Retired(w) && (w.worker.Some? ==> w.worker.value.pc.Entering?))
    ensures Abandoned(v, id) || Retired(v)
    ensures v.log.published == w.log.published
    decreases |steps|
  {
    if steps == [] {
    } else {
      StepKeeps(w, steps[0]);
      StepTells(w, steps[0]);
      AbandonedStep(w, id, steps[0]);
      AbandonedCompositeStaysFenced(Apply(w, steps[0]), id, steps[1..], v);
    }
  }

  lemma AbandonedStep(w: World, id: nat, s: Step)
    requires Inv(w) && Enabled(w, s)
    requires Abandoned(w, id) || (Retired(w) && (w.worker.Some? ==> w.worker.value.pc.Entering?))
    ensures var v := Apply(w, s);
            && (Abandoned(v, id) || (Retired(v) && (v.worker.Some? ==> v.worker.value.pc.Entering?)))
            && v.log.published == w.log.published
  {
    match s
    case OfBridge(t) => BridgeFrame(w, t);
    case OfEntry(t) =>
      AbandonedEntry(w, id, t);
      EntryFrame(w, t);
    case OfStaging(t) =>
      AbandonedStaging(w, id, t);
      StagingFrame(w, t);
    case OfRecovery(t) =>
      RecoveryFrame(w, t);
      RecoveryJournal(w, t);
    case _ => AbandonedAllowsNothingElse(w, s);
  }

  lemma AbandonedEntry(w: World, id: nat, s: EntryStep)
    requires Inv(w) && EntryEnabled(w, s)
    requires Abandoned(w, id) || (Retired(w) && (w.worker.Some? ==> w.worker.value.pc.Entering?))
    ensures EntryApply(w, s).journal == w.journal
    ensures EntryApply(w, s).worker.Some? ==> EntryApply(w, s).worker.value.pc.Entering?
  { }

  lemma AbandonedStaging(w: World, id: nat, s: StagingStep)
    requires Inv(w) && StagingEnabled(w, s)
    requires Abandoned(w, id) || (Retired(w) && (w.worker.Some? ==> w.worker.value.pc.Entering?))
    ensures StagingApply(w, s).journal == w.journal && StagingApply(w, s).worker == w.worker
  { }

  lemma AbandonedAllowsNothingElse(w: World, s: Step)
    requires w.worker.Some? ==> w.worker.value.pc.Entering?
    requires s.OfPublish? || s.OfPoll? || s.OfWithdraw? || s.OfMark? || s.OfFinish?
    ensures !Enabled(w, s)
  { }

  // ----- Staging files -----

  /**
    Staging files outlive their writers: a step that takes a staging path away, or puts another file
    there, is either an outside program or happens while no request at all is in flight and takes
    exactly the inode that was journaled (or that this worker has just created).
   */
  lemma StagingOutlivesWriters(w: World, s: Step, path: nat)
    requires Inv(w) && Enabled(w, s) && path in w.staging
    requires path !in Apply(w, s).staging || Apply(w, s).staging[path] != w.staging[path]
    ensures (s.OfBridge? && s.bridge == ForeignStaging(path)) || s.OfStaging?
    ensures s.OfStaging? ==> forall r :: !InFlight(w, r)
    ensures s.OfStaging? && !s.staging.Unstage? ==>
              HasOperation(w) && exists a :: a in Op(w).artifacts && a.path == path && a.inode == w.staging[path]
    ensures s.OfStaging? && s.staging.Unstage? ==>
              At(w, Unstaging(Artifact(path, w.staging[path], w.worker.value.pc.artifact.request)))
  {
    match s
    case OfBridge(t) => BridgeFrame(w, t);
    case OfEntry(t) => EntryFrame(w, t);
    case OfStaging(t) => StagingStepIsQuiet(w, t, path);
    case OfPublish(t) => PublishFrame(w, t);
    case OfPoll(t) => PollFrame(w, t);
    case OfWithdraw(t) => WithdrawFrame(w, t);
    case OfMark(t) => MarkFrame(w, t);
    case OfFinish(t) => FinishFrame(w, t);
    case OfRecovery(t) => RecoveryFrame(w, t);
  }

  lemma StagingStepIsQuiet(w: World, s: StagingStep, path: nat)
    requires Inv(w) && StagingEnabled(w, s) && path in w.staging
    requires path !in StagingApply(w, s).staging || StagingApply(w, s).staging[path] != w.staging[path]
    ensures Quiet(w)
    ensures !s.Unstage? ==>
              HasOperation(w) && exists a :: a in Op(w).artifacts && a.path == path && a.inode == w.staging[path]
    ensures s.Unstage? ==> At(w, Unstaging(Artifact(path, w.staging[path], w.worker.value.pc.artifact.request)))
  { }

  /** The request may be writing to the path it was given, or may still be started. */
  predicate MayWrite(w: World, r: Request) {
    InFlight(w, r) || (r in w.log.issued && w.log.executed[r] == 0 && !CannotRun(w, r))
  }

  /** While a request may write, nothing is staged, published (renamed or linked) or cleaned up. */
  lemma WriterStopsStaging(w: World, s: StagingStep, r: Request)
    requires Inv(w) && MayWrite(w, r)
    ensures !StagingEnabled(w, s)
  { }

  /** So no host step touches any staging file while its writer may still write. */
  lemma InFlightPinsStaging(init: World, steps: seq<Step>, w: World, s: Step, r: Request, path: nat)
    requires Init(init) && Reaches(init, steps, w) && Enabled(w, s)
    requires MayWrite(w, r) && path in w.staging
    ensures !s.OfStaging?
    ensures path in Apply(w, s).staging
    ensures Apply(w, s).staging[path] == w.staging[path] || s == OfBridge(ForeignStaging(path))
  {
    InitEstablishes(init);
    RunKeeps(init, steps, w);
    if s.OfStaging? {
      WriterStopsStaging(w, s.staging, r);
    } else if path !in Apply(w, s).staging || Apply(w, s).staging[path] != w.staging[path] {
      StagingOutlivesWriters(w, s, path);
    }
  }

  // ----- Publishing and withdrawing again -----

  lemma {:induction false} UntagUndoesTag(artifacts: seq<Artifact>, r: Request)
    requires forall a :: a in artifacts ==> a.request != Some(r)
    ensures Untag(Tag(artifacts, r), r) == artifacts
  {
    if artifacts == [] {
    } else {
      UntagUndoesTag(artifacts[1..], r);
      assert Tag(artifacts, r)[1..] == Tag(artifacts[1..], r);
    }
  }

  /** Publishing a fresh request and withdrawing it is the identity on the journal entry. */
  lemma WithdrawUndoesPublish(o: Operation, r: Request)
    requires o.pending.None? && forall a :: a in o.artifacts ==> a.request != Some(r)
    ensures WithoutPending(WithPending(o, r), r, o.started) == o
  {
    UntagUndoesTag(o.artifacts, r);
  }

  // ----- Commands of other programs -----

  /** A command file other programs wrote is still somewhere the bridge or a person can find it. */
  predicate Kept(w: World, c: Command) {
    || w.command == Some(c)
    || c in w.retained
    || c.inode in w.log.taken
    || (w.worker.Some? && (w.worker.value.pc.WithdrawMoved? || w.worker.value.pc.WithdrawVerified?)
        && w.worker.value.pc.moved == c)
  }

  /**
    Withdrawal racing a replaced file never destroys or overwrites it: in every reachable state no
    withdrawal step, and no crash inside one, loses a command that no host worker wrote.
   */
  lemma WithdrawalKeepsForeignCommands(init: World, steps: seq<Step>, w: World, s: Step, c: Command)
    requires Init(init) && Reaches(init, steps, w) && Enabled(w, s) && (s.OfWithdraw? || s == OfEntry(WorkerGone))
    requires c.request.None? && Kept(w, c)
    ensures Kept(Apply(w, s), c)
  {
    RunKeepsOurs(init, steps, w);
    match s
    case OfWithdraw(t) => WithdrawStepKeepsForeign(w, t, c);
    case OfEntry(_) =>
  }

  /** The replacement of `command.lua` hits another program's command that nobody has claimed yet. */
  predicate Overwrites(w: World, s: PublishStep, c: Command) {
    s.WriteCommand? && s.fault != BeforeReplace
    && w.command == Some(c) && c !in w.retained && c.inode !in w.log.taken
  }

  /** Publishing keeps a foreign command if and only if it does not overwrite it. */
  lemma PublicationKeepsForeignExactlyUnlessOverwritten(w: World, s: PublishStep, c: Command)
    requires PublishEnabled(w, s) && c.request.None? && Kept(w, c)
    ensures Kept(PublishApply(w, s), c) <==> !Overwrites(w, s, c)
  {
    PublishLeavesTraces(w, s);
  }

  /** What a publish step leaves of the files a command could lie in. */
  ghost predicate Traces(w: World, s: PublishStep, v: World) {
    && v.retained == w.retained && v.log.taken == w.log.taken
    && (if s.WriteCommand? && s.fault != BeforeReplace then v.command.Some? && v.command.value.request.Some?
        else v.command == w.command)
    && v.worker.Some? && !v.worker.value.pc.WithdrawMoved? && !v.worker.value.pc.WithdrawVerified?
  }

  lemma NamingTraces(w: World, fault: Fault)
    requires PublishEnabled(w, JournalPending(fault))
    ensures Traces(w, JournalPending(fault), PublishApply(w, JournalPending(fault)))
  { }

  lemma UndoingTraces(w: World, fault: Fault)
    requires PublishEnabled(w, UndoPending(fault))
    ensures Traces(w, UndoPending(fault), PublishApply(w, UndoPending(fault)))
  { }

  lemma PublishLeavesTraces(w: World, s: PublishStep)
    requires PublishEnabled(w, s)
    ensures Traces(w, s, PublishApply(w, s))
  {
    match s
    case JournalPending(fault) => NamingTraces(w, fault);
    case UndoPending(fault) => UndoingTraces(w, fault);
    case _ =>
  }

  /** What can happen between the existence check and the replacement. */
  predicate InWindow(s: Step) {
    s.OfBridge? || s.OfRecovery? || s.OfPublish? || (s.OfStaging? && s.staging.Sweep?)
  }

  /** An outside program put exactly this command during the run. */
  ghost predicate Arrived(w: World, steps: seq<Step>, c: Command)
    decreases |steps|
  {
    steps != [] && Enabled(w, steps[0])
    && ((steps[0] == OfBridge(ForeignPut) && c == Command(w.next.inode, None))
        || Arrived(Apply(w, steps[0]), steps[1..], c))
  }

  lemma BridgeStepBrings(w: World, s: BridgeStep, c: Command)
    requires BridgeEnabled(w, s) && c.request.None?
    requires w.command != Some(c) && BridgeApply(w, s).command == Some(c)
    ensures s == ForeignPut && c == Command(w.next.inode, None)
  { }

  lemma RecoveryLeavesCommand(w: World, s: RecoveryStep)
    requires RecoveryEnabled(w, s)
    ensures RecoveryApply(w, s).command == w.command
  { }

  lemma WindowStepBrings(w: World, s: Step, c: Command)
    requires Enabled(w, s) && InWindow(s) && c.request.None?
    requires w.command != Some(c) && Apply(w, s).command == Some(c)
    ensures s == OfBridge(ForeignPut) && c == Command(w.next.inode, None)
  {
    match s
    case OfBridge(t) => BridgeStepBrings(w, t, c);
    case OfRecovery(t) => RecoveryLeavesCommand(w, t);
    case OfPublish(t) => PublishLeavesTraces(w, t);
    case OfStaging(t) =>
  }

  lemma {:induction false} OnlyArrivalsAreThere(w: World, steps: seq<Step>, u: World, c: Command)
    requires Reaches(w, steps, u) && (forall i :: 0 <= i < |steps| ==> InWindow(steps[i]))
    requires c.request.None? && w.command != Some(c) && u.command == Some(c)
    ensures Arrived(w, steps, c)
    decreases |steps|
  {
    if steps == [] {
    } else if Apply(w, steps[0]).command == Some(c) {
      WindowStepBrings(w, steps[0], c);
    } else {
      OnlyArrivalsAreThere(Apply(w, steps[0]), steps[1..], u, c);
    }
  }

  /**
    The callback of a publication, from finding no command file to replacing it: a foreign command that
    still exists before the replacement is lost by it if and only if it arrived in between and still lies
    unclaimed at `command.lua`.
   */
  lemma CallbackLosesExactlyLateArrivals(w: World, window: seq<Step>, u: World, fault: Fault, c: Command)
    requires PublishEnabled(w, FindsNoCommand) && Reaches(PublishApply(w, FindsNoCommand), window, u)
    requires forall i :: 0 <= i < |window| ==> InWindow(window[i])
    requires PublishEnabled(u, WriteCommand(fault)) && fault != BeforeReplace && c.request.None?
    ensures Kept(u, c) && !Kept(PublishApply(u, WriteCommand(fault)), c) <==>
              && Arrived(PublishApply(w, FindsNoCommand), window, c)
              && u.command == Some(c) && c !in u.retained && c.inode !in u.log.taken
  {
    if Kept(u, c) {
      PublicationKeepsForeignExactlyUnlessOverwritten(u, WriteCommand(fault), c);
    }
    if u.command == Some(c) {
      OnlyArrivalsAreThere(PublishApply(w, FindsNoCommand), window, u, c);
    }
  }

  lemma {:induction false} RunKeepsOurs(w: World, steps: seq<Step>, v: World)
    requires VerifiedIsOurs(w) && Reaches(w, steps, v)
    ensures VerifiedIsOurs(v)
    decreases |steps|
  {
    if steps == [] {
    } else {
      VerifiedStaysOurs(w, steps[0]);
      RunKeepsOurs(Apply(w, steps[0]), steps[1..], v);
    }
  }

  lemma WithdrawStepKeepsForeign(w: World, s: WithdrawStep, c: Command)
    requires WithdrawEnabled(w, s) && c.request.None? && Kept(w, c) && VerifiedIsOurs(w)
    ensures Kept(WithdrawApply(w, s), c)
  { }

  /** A verified withdrawal only ever holds the worker's own command file. */
  predicate VerifiedIsOurs(w: World) {
    w.worker.Some? && w.worker.value.pc.WithdrawVerified? ==>
      w.worker.value.pc.moved.request == Some(w.worker.value.pc.request)
  }

  lemma VerifiedStaysOurs(w: World, s: Step)
    requires Enabled(w, s) && VerifiedIsOurs(w)
    ensures VerifiedIsOurs(Apply(w, s))
  {
    match s
    case OfBridge(t) => BridgeFrame(w, t);
    case OfEntry(t) => EntryPc(w, t);
    case OfStaging(t) => StagingFrame(w, t);
    case OfPublish(t) => PublishPc(w, t);
    case OfPoll(t) => PollPc(w, t);
    case OfWithdraw(t) =>
    case OfMark(t) => MarkPc(w, t);
    case OfFinish(t) => FinishPc(w, t);
    case OfRecovery(t) => RecoveryFrame(w, t);
  }
}
