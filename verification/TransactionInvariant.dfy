/**
  The inductive invariant of the transaction protocol. It is kept as a handful of small predicates,
  each preserved by every step of the machine.
 */
module TransactionInvariant {
  import opened Basics
  import opened BridgeReply
  import opened TransactionWorld
  import opened TransactionProtocol

  // ----- Vocabulary -----

  predicate Critical(pc: Pc) {
    !(pc.Holding? || pc.Polling? || pc.Responded? || pc.Expired? || pc.Returning?)
  }

  /** The worker has chosen this id but its command file is not visible yet. */
  predicate BeforeWrite(pc: Pc) {
    pc.PublishEntered? || pc.PublishJournaled? || pc.PublishCleared? || pc.PublishReady? || pc.PublishUnwritten?
  }

  predicate AfterWrite(pc: Pc) {
    || pc.PublishWritten? || pc.Polling? || pc.Responded? || pc.Expired?
    || pc.WithdrawOpened? || pc.WithdrawMoved? || pc.WithdrawVerified? || pc.WithdrawDropped?
  }

  predicate Withdrawing(pc: Pc) {
    pc.WithdrawOpened? || pc.WithdrawMoved? || pc.WithdrawVerified? || pc.WithdrawDropped?
  }

  /** The journal entry already names this request. */
  predicate JournalNamed(pc: Pc) {
    || pc.PublishJournaled? || pc.PublishCleared? || pc.PublishReady? || pc.PublishUnwritten?
    || pc.PublishWritten? || Withdrawing(pc)
  }

  /** The response the worker carries, from reading it to returning it. */
  function Carried(pc: Pc): Option<Answer> {
    match pc
    case Responded(request, response) => Some(Answer(request, response))
    case Returning(request, response) => Some(Answer(request, response))
    case Finishing(_, answer) => answer
    case FinishUndo(_, answer) => answer
    case _ => None
  }

  predicate Quiet(w: World) {
    !w.bridge.Dead? ==> Waiting(w).None? && Inside(w).None?
  }

  /** In no continuation will the bridge start this request. */
  predicate CannotRun(w: World, r: Request) {
    && r in w.log.issued
    && w.log.executed[r] == 0
    && (|| w.bridge.Dead?
        || (&& Waiting(w) != Some(r)
            && !(w.bridge.Claimed? && w.bridge.command.request == Some(r))
            && !(w.worker.Some? && BeforeWrite(w.worker.value.pc) && w.worker.value.pc.request == r)))
  }

  /** What a correlated response says about its request is true. */
  predicate Truthful(w: World, response: Response) {
    response.id.Some? ==>
      && HostOutcome(response) != NotExecuted
      && (HostOutcome(response) == Completed <==> response.id.value in w.log.returned)
  }

  /** The endings that carry the `not_executed` label of a fence met after publication. */
  predicate MetFence(exit: Exit) {
    exit == FencedWhilePolling || exit == FencedWhileFinishing
  }

  predicate SoundReport(w: World, p: Report) {
    && p.request in w.log.issued
    && (p.outcome == NotExecuted && !MetFence(p.exit) ==> CannotRun(w, p.request))
    && (p.outcome == Completed && p.exit != LateExit ==> p.request in w.log.returned)
  }

  // ----- The invariant -----

  ghost predicate Locks(w: World) {
    && (w.guard == ByWorker <==> w.worker.Some? && Critical(w.worker.value.pc))
    && (w.guard == ByRecovery <==> w.recovery.Some? && w.recovery.value.Cleaning?)
  }

  ghost predicate Names(w: World) {
    && (w.worker.Some? ==> w.worker.value.id < w.next.operation)
    && (HasOperation(w) ==> Op(w).id < w.next.operation)
    && (w.worker.Some? && HasOperation(w) && (w.worker.value.pc.Entering? || w.worker.value.pc.Reclaiming?)
        ==> Op(w).id < w.worker.value.id)
    && (w.recovery.Some? ==>
          && w.journal.Some? && w.journal.value.state != Ready
          && w.journal.value.generation == w.recovery.value.generation)
    && (w.removed ==> w.journal.None? && w.recovery.None? && w.worker.None?)
    && (w.heartbeat == RenameV1 ==> w.renames)
  }

  ghost predicate Ownership(w: World) {
    w.worker.Some? ==>
      var pc := w.worker.value.pc;
      && (Critical(pc) && !pc.Entering? && !pc.Reclaiming? && !pc.FinishUndo? ==> Owned(w))
      && (pc.Reclaiming? ==>
            IsReady(w) && HasOperation(w) && !(Op(w).composite && Op(w).started) && Quiet(w))
      && (pc.Staging? || pc.Unstaging? || pc.PublishEntered? ==> Resolved(Op(w)))
      && (pc.Returning? && Owned(w) ==> Resolved(Op(w)) && Op(w).artifacts == [])
      && (pc.Finishing? && pc.answer.Some? ==> Resolved(Op(w)) && Op(w).artifacts == [])
      && (pc.FinishUndo? ==>
            && IsReady(w) && Pending(w).None? && pc.operation.id == w.worker.value.id && Resolved(pc.operation)
            && w.journal.value.generation == w.worker.value.generation
            && (HasOperation(w) ==> Op(w).id == w.worker.value.id))
      && (JournalNamed(pc) ==> Pending(w) == Some(pc.request))
      && (JournalNamed(pc) || pc.Polling? || pc.Expired? ==> w.worker.value.pendingStarted.Some?)
  }

  ghost predicate Fences(w: World) {
    && (w.journal.Some? && w.journal.value.state == Stopped ==> w.bridge.Dead?)
    && (w.recovery.Some? && !w.recovery.value.Fencing? ==> w.bridge.Dead?)
  }

  ghost predicate Histories(w: World) {
    && w.log.published.Keys <= w.log.issued
    && (forall r :: r in w.log.executed ==> r in w.log.published)
    && (forall r :: r in w.log.returned ==> r in w.log.executed)
    && (forall r :: r in w.log.replied ==> r in w.log.executed)
    && (w.bridge.Replying? && w.bridge.reply.id.Some? ==> w.bridge.reply.id.value in w.log.executed)
    && (w.response.Some? && w.response.value.id.Some? ==> w.response.value.id.value in w.log.replied)
    && (w.worker.Some? && BeforeWrite(w.worker.value.pc) ==>
          w.worker.value.pc.request in w.log.issued && w.worker.value.pc.request !in w.log.published)
    && (w.worker.Some? && AfterWrite(w.worker.value.pc) ==> w.worker.value.pc.request in w.log.published)
    && (Inside(w).Some? ==> Inside(w).value in w.log.published)
    && (Waiting(w).Some? ==>
          Waiting(w).value in w.log.published && w.command.value.inode == w.log.published[Waiting(w).value])
  }

  /** At most one request is in flight, and the journal names it. */
  ghost predicate SingleFlight(w: World) {
    !w.bridge.Dead? ==>
      && (Waiting(w).Some? ==> Pending(w) == Waiting(w))
      && (Inside(w).Some? ==> Pending(w) == Inside(w))
  }

  ghost predicate AtMostOnce(w: World) {
    forall r :: w.log.executed[r] <= 1
  }

  ghost predicate Stages(w: World) {
    && (Waiting(w).Some? ==>
          && w.log.executed[Waiting(w).value] == 0 && Waiting(w).value !in w.log.replied
          && (Inside(w) == Waiting(w) ==> w.bridge.Claimed? && !w.renames))
    && (Inside(w).Some? ==> Inside(w).value !in w.log.replied)
    && (w.bridge.Claimed? && Inside(w).Some? ==> w.log.executed[Inside(w).value] == 0)
    && (w.bridge.Executing? && Inside(w).Some? ==>
          w.log.executed[Inside(w).value] == 1 && Inside(w).value !in w.log.returned)
  }

  ghost predicate Withdrawal(w: World) {
    w.worker.Some? && Withdrawing(w.worker.value.pc) ==>
      var pc := w.worker.value.pc;
      && w.renames
      && pc.request in w.log.published
      && (pc.WithdrawOpened? || pc.WithdrawMoved? ==> pc.inode == w.log.published[pc.request])
      && (pc.WithdrawMoved? && pc.moved.request.Some? ==>
            var r := pc.moved.request.value;
            && r in w.log.published && w.log.executed[r] == 0 && r !in w.log.replied
            && Inside(w) != Some(r) && Waiting(w) != Some(r)
            && pc.moved.inode == w.log.published[r]
            && (!w.bridge.Dead? ==> r == pc.request))
      && (pc.WithdrawVerified? || pc.WithdrawDropped? ==>
            && w.log.executed[pc.request] == 0
            && Inside(w) != Some(pc.request) && Waiting(w) != Some(pc.request))
  }

  ghost predicate Truth(w: World) {
    && (w.response.Some? ==> Truthful(w, w.response.value))
    && (w.bridge.Replying? ==> Truthful(w, w.bridge.reply))
    && (w.worker.Some? && Carried(w.worker.value.pc).Some? ==>
          var answer := Carried(w.worker.value.pc).value;
          && answer.response.id == Some(answer.request)
          && answer.request in w.log.replied
          && Truthful(w, answer.response))
  }

  ghost predicate Reports(w: World) {
    forall p :: p in w.log.reports ==> SoundReport(w, p)
  }

  ghost predicate Books(w: World) {
    Locks(w) && Names(w) && Histories(w) && Fences(w)
  }

  ghost predicate Control(w: World) {
    Books(w) && Ownership(w)
  }

  ghost predicate Flight(w: World) {
    SingleFlight(w) && AtMostOnce(w) && Stages(w) && Withdrawal(w) && Truth(w)
  }

  ghost predicate Inv(w: World) {
    Control(w) && Flight(w)
  }

  // ----- It holds at the start and every step keeps it -----

  lemma InitEstablishes(w: World)
    requires Init(w)
    ensures Inv(w) && Reports(w)
  {
  }

  lemma ClaimKeeps(w: World)
    requires Inv(w) && BridgeEnabled(w, Claim)
    ensures Inv(BridgeApply(w, Claim))
  { }

  lemma RejectKeepsControl(w: World, shape: Handler, encodable: bool, fallback: bool)
    requires Inv(w) && BridgeEnabled(w, Reject(shape, encodable, fallback))
    ensures Control(BridgeApply(w, Reject(shape, encodable, fallback)))
  { }

  lemma RejectKeepsFlight(w: World, shape: Handler, encodable: bool, fallback: bool)
    requires Inv(w) && BridgeEnabled(w, Reject(shape, encodable, fallback))
    ensures Flight(BridgeApply(w, Reject(shape, encodable, fallback)))
  { }

  lemma RejectKeeps(w: World, shape: Handler, encodable: bool, fallback: bool)
    requires Inv(w) && BridgeEnabled(w, Reject(shape, encodable, fallback))
    ensures Inv(BridgeApply(w, Reject(shape, encodable, fallback)))
  {
    RejectKeepsControl(w, shape, encodable, fallback);
    RejectKeepsFlight(w, shape, encodable, fallback);
  }

  lemma StartKeepsHistories(w: World)
    requires Histories(w) && BridgeEnabled(w, Start)
    ensures Histories(BridgeApply(w, Start))
  {
    var v := BridgeApply(w, Start);
    assert Inside(v) == Inside(w) && (Waiting(v).Some? ==> v.command == w.command);
    forall r | r in v.log.executed
      ensures r in v.log.published
    {
      assert r in w.log.executed || Inside(w) == Some(r);
    }
    forall r | r in v.log.returned
      ensures r in v.log.executed
    {
      assert r in w.log.executed;
    }
  }

  lemma StartKeepsBooks(w: World)
    requires Books(w) && BridgeEnabled(w, Start)
    ensures Books(BridgeApply(w, Start))
  {
    StartKeepsHistories(w);
  }

  lemma StartKeepsControl(w: World)
    requires Inv(w) && BridgeEnabled(w, Start)
    ensures Control(BridgeApply(w, Start))
  {
    StartKeepsBooks(w);
  }

  lemma StartKeepsOnce(w: World)
    requires Inv(w) && BridgeEnabled(w, Start)
    ensures AtMostOnce(BridgeApply(w, Start))
  { }

  lemma StartKeepsStages(w: World)
    requires Inv(w) && BridgeEnabled(w, Start)
    ensures Stages(BridgeApply(w, Start)) && Withdrawal(BridgeApply(w, Start))
  { }

  lemma StartKeepsTruth(w: World)
    requires Inv(w) && BridgeEnabled(w, Start)
    ensures SingleFlight(BridgeApply(w, Start)) && Truth(BridgeApply(w, Start))
  { }

  lemma StartKeepsFlight(w: World)
    requires Inv(w) && BridgeEnabled(w, Start)
    ensures Flight(BridgeApply(w, Start))
  {
    StartKeepsOnce(w);
    StartKeepsStages(w);
    StartKeepsTruth(w);
  }

  lemma ReturnKeepsBooks(w: World, handler: Handler, encodable: bool, fallback: bool)
    requires Inv(w) && BridgeEnabled(w, Return(handler, encodable, fallback))
    ensures Books(BridgeApply(w, Return(handler, encodable, fallback)))
  { }

  lemma ReturnKeepsOwnership(w: World, handler: Handler, encodable: bool, fallback: bool)
    requires Inv(w) && BridgeEnabled(w, Return(handler, encodable, fallback))
    ensures Ownership(BridgeApply(w, Return(handler, encodable, fallback)))
  { }

  lemma ReturnKeepsControl(w: World, handler: Handler, encodable: bool, fallback: bool)
    requires Inv(w) && BridgeEnabled(w, Return(handler, encodable, fallback))
    ensures Control(BridgeApply(w, Return(handler, encodable, fallback)))
  {
    ReturnKeepsBooks(w, handler, encodable, fallback);
    ReturnKeepsOwnership(w, handler, encodable, fallback);
  }

  lemma ReturnKeepsFlight(w: World, handler: Handler, encodable: bool, fallback: bool)
    requires Inv(w) && BridgeEnabled(w, Return(handler, encodable, fallback))
    ensures Flight(BridgeApply(w, Return(handler, encodable, fallback)))
  { }

  lemma RespondKeepsControl(w: World, written: bool)
    requires Inv(w) && BridgeEnabled(w, Respond(written))
    ensures Control(BridgeApply(w, Respond(written)))
  { }

  lemma RespondKeepsFlight(w: World, written: bool)
    requires Inv(w) && BridgeEnabled(w, Respond(written))
    ensures Flight(BridgeApply(w, Respond(written)))
  { }

  lemma RespondKeeps(w: World, written: bool)
    requires Inv(w) && BridgeEnabled(w, Respond(written))
    ensures Inv(BridgeApply(w, Respond(written)))
  {
    RespondKeepsControl(w, written);
    RespondKeepsFlight(w, written);
  }

  lemma DieKeeps(w: World)
    requires Inv(w) && BridgeEnabled(w, Die)
    ensures Inv(BridgeApply(w, Die))
  { }

  lemma BeatKeepsControl(w: World, heartbeat: Heartbeat)
    requires Inv(w) && BridgeEnabled(w, Beat(heartbeat))
    ensures Control(BridgeApply(w, Beat(heartbeat)))
  { }

  lemma BeatKeepsFlight(w: World, heartbeat: Heartbeat)
    requires Inv(w) && BridgeEnabled(w, Beat(heartbeat))
    ensures Flight(BridgeApply(w, Beat(heartbeat)))
  { }

  lemma BeatKeeps(w: World, heartbeat: Heartbeat)
    requires Inv(w) && BridgeEnabled(w, Beat(heartbeat))
    ensures Inv(BridgeApply(w, Beat(heartbeat)))
  {
    BeatKeepsControl(w, heartbeat);
    BeatKeepsFlight(w, heartbeat);
  }

  lemma ForeignPutKeeps(w: World)
    requires Inv(w) && BridgeEnabled(w, ForeignPut)
    ensures Inv(BridgeApply(w, ForeignPut))
  { }

  lemma ForeignStagingKeepsControl(w: World, path: nat)
    requires Inv(w) && BridgeEnabled(w, ForeignStaging(path))
    ensures Control(BridgeApply(w, ForeignStaging(path)))
  { }

  lemma ForeignStagingKeepsFlight(w: World, path: nat)
    requires Inv(w) && BridgeEnabled(w, ForeignStaging(path))
    ensures Flight(BridgeApply(w, ForeignStaging(path)))
  { }

  lemma ForeignStagingKeeps(w: World, path: nat)
    requires Inv(w) && BridgeEnabled(w, ForeignStaging(path))
    ensures Inv(BridgeApply(w, ForeignStaging(path)))
  {
    ForeignStagingKeepsControl(w, path);
    ForeignStagingKeepsFlight(w, path);
  }

  lemma BridgeKeeps(w: World, s: BridgeStep)
    requires Inv(w) && BridgeEnabled(w, s)
    ensures Inv(BridgeApply(w, s))
  {
    match s
    case Claim => ClaimKeeps(w);
    case Reject(shape, encodable, fallback) => RejectKeeps(w, shape, encodable, fallback);
    case Start =>
      StartKeepsControl(w);
      StartKeepsFlight(w);
    case Return(handler, encodable, fallback) =>
      ReturnKeepsControl(w, handler, encodable, fallback);
      ReturnKeepsFlight(w, handler, encodable, fallback);
    case Respond(written) => RespondKeeps(w, written);
    case Die => DieKeeps(w);
    case Beat(heartbeat) => BeatKeeps(w, heartbeat);
    case ForeignPut => ForeignPutKeeps(w);
    case ForeignStaging(path) => ForeignStagingKeeps(w, path);
  }

  lemma AcquireKeeps(w: World, created: bool)
    requires Inv(w) && EntryEnabled(w, Acquire(created))
    ensures Inv(EntryApply(w, Acquire(created)))
  { }

  lemma InitialiseKeepsControl(w: World, fault: Fault)
    requires Inv(w) && EntryEnabled(w, Initialise(fault))
    ensures Control(EntryApply(w, Initialise(fault)))
  { }

  lemma InitialiseKeepsFlight(w: World, fault: Fault)
    requires Inv(w) && EntryEnabled(w, Initialise(fault))
    ensures Flight(EntryApply(w, Initialise(fault)))
  { }

  lemma InitialiseKeeps(w: World, fault: Fault)
    requires Inv(w) && EntryEnabled(w, Initialise(fault))
    ensures Inv(EntryApply(w, Initialise(fault)))
  {
    InitialiseKeepsControl(w, fault);
    InitialiseKeepsFlight(w, fault);
  }

  lemma ReclaimKeeps(w: World)
    requires Inv(w) && EntryEnabled(w, Reclaim)
    ensures Inv(EntryApply(w, Reclaim))
  { }

  lemma AdmitKeepsControl(w: World, composite: bool, fault: Fault)
    requires Inv(w) && EntryEnabled(w, Admit(composite, fault))
    ensures Control(EntryApply(w, Admit(composite, fault)))
  {
    AdmitKeepsBooks(w, composite, fault);
  }

  lemma AdmitKeepsBooks(w: World, composite: bool, fault: Fault)
    requires Inv(w) && EntryEnabled(w, Admit(composite, fault))
    ensures Books(EntryApply(w, Admit(composite, fault)))
  {
    AdmitKeepsNames(w, composite, fault);
  }

  lemma AdmitKeepsNames(w: World, composite: bool, fault: Fault)
    requires Inv(w) && EntryEnabled(w, Admit(composite, fault))
    ensures var v := EntryApply(w, Admit(composite, fault));
            Locks(v) && Names(v)
  { }

  lemma AdmitKeepsFlight(w: World, composite: bool, fault: Fault)
    requires Inv(w) && EntryEnabled(w, Admit(composite, fault))
    ensures Flight(EntryApply(w, Admit(composite, fault)))
  { }

  lemma WorkerGoneKeeps(w: World)
    requires Inv(w) && EntryEnabled(w, WorkerGone)
    ensures Inv(EntryApply(w, WorkerGone))
  { }

  lemma EntryKeeps(w: World, s: EntryStep)
    requires Inv(w) && EntryEnabled(w, s)
    ensures Inv(EntryApply(w, s))
  {
    match s
    case Acquire(created) => AcquireKeeps(w, created);
    case Initialise(fault) => InitialiseKeeps(w, fault);
    case Reclaim => ReclaimKeeps(w);
    case Admit(composite, fault) =>
      AdmitKeepsControl(w, composite, fault);
      AdmitKeepsFlight(w, composite, fault);
    case WorkerGone => WorkerGoneKeeps(w);
  }

  lemma StageCreateKeeps(w: World, path: nat)
    requires Inv(w) && StagingEnabled(w, StageCreate(path))
    ensures Inv(StagingApply(w, StageCreate(path)))
  { }

  lemma StageCommitKeepsBooks(w: World, fault: Fault, expired: bool)
    requires Inv(w) && StagingEnabled(w, StageCommit(fault, expired))
    ensures Books(StagingApply(w, StageCommit(fault, expired)))
  {
    StageCommitKeepsHistories(w, fault, expired);
  }

  lemma StageCommitKeepsHistories(w: World, fault: Fault, expired: bool)
    requires Inv(w) && StagingEnabled(w, StageCommit(fault, expired))
    ensures Histories(StagingApply(w, StageCommit(fault, expired)))
  { }

  lemma StageCommitKeepsOwnership(w: World, fault: Fault, expired: bool)
    requires Inv(w) && StagingEnabled(w, StageCommit(fault, expired))
    ensures Ownership(StagingApply(w, StageCommit(fault, expired)))
  { }

  lemma StageCommitKeepsControl(w: World, fault: Fault, expired: bool)
    requires Inv(w) && StagingEnabled(w, StageCommit(fault, expired))
    ensures Control(StagingApply(w, StageCommit(fault, expired)))
  {
    StageCommitKeepsBooks(w, fault, expired);
    StageCommitKeepsOwnership(w, fault, expired);
  }

  lemma StageCommitKeepsFlight(w: World, fault: Fault, expired: bool)
    requires Inv(w) && StagingEnabled(w, StageCommit(fault, expired))
    ensures Flight(StagingApply(w, StageCommit(fault, expired)))
  { }

  lemma UnstageKeeps(w: World)
    requires Inv(w) && StagingEnabled(w, Unstage)
    ensures Inv(StagingApply(w, Unstage))
  { }

  lemma UnstageFailsKeepsControl(w: World, fault: Fault)
    requires Inv(w) && StagingEnabled(w, UnstageFails(fault))
    ensures Control(StagingApply(w, UnstageFails(fault)))
  { }

  lemma UnstageFailsKeepsFlight(w: World, fault: Fault)
    requires Inv(w) && StagingEnabled(w, UnstageFails(fault))
    ensures Flight(StagingApply(w, UnstageFails(fault)))
  { }

  lemma PublishShotKeeps(w: World, artifact: Artifact, replaced: bool)
    requires Inv(w) && StagingEnabled(w, PublishShot(artifact, replaced))
    ensures Inv(StagingApply(w, PublishShot(artifact, replaced)))
  { }

  lemma SweepKeeps(w: World, artifact: Artifact)
    requires Inv(w) && StagingEnabled(w, Sweep(artifact))
    ensures Inv(StagingApply(w, Sweep(artifact)))
  { }

  lemma SweepFailedKeeps(w: World, kept: seq<Artifact>, fault: Fault)
    requires Inv(w) && StagingEnabled(w, SweepFailed(kept, fault))
    ensures Inv(StagingApply(w, SweepFailed(kept, fault)))
  { }

  lemma StagingKeeps(w: World, s: StagingStep)
    requires Inv(w) && StagingEnabled(w, s)
    ensures Inv(StagingApply(w, s))
  {
    match s
    case StageCreate(path) => StageCreateKeeps(w, path);
    case StageCommit(fault, expired) =>
      StageCommitKeepsControl(w, fault, expired);
      StageCommitKeepsFlight(w, fault, expired);
    case Unstage => UnstageKeeps(w);
    case UnstageFails(fault) =>
      UnstageFailsKeepsControl(w, fault);
      UnstageFailsKeepsFlight(w, fault);
    case PublishShot(artifact, replaced) => PublishShotKeeps(w, artifact, replaced);
    case Sweep(artifact) => SweepKeeps(w, artifact);
    case SweepFailed(kept, fault) => SweepFailedKeeps(w, kept, fault);
  }

  lemma RefusePublishKeeps(w: World, request: Request, expired: bool)
    requires Inv(w) && PublishEnabled(w, RefusePublish(request, expired))
    ensures Inv(PublishApply(w, RefusePublish(request, expired)))
  { }

  lemma EnterPublishKeeps(w: World, request: Request)
    requires Inv(w) && PublishEnabled(w, EnterPublish(request))
    ensures Inv(PublishApply(w, EnterPublish(request)))
  { }

  lemma JournalPendingKeepsBooks(w: World, fault: Fault)
    requires Inv(w) && PublishEnabled(w, JournalPending(fault))
    ensures Books(PublishApply(w, JournalPending(fault)))
  { }

  lemma JournalPendingKeepsOwnership(w: World, fault: Fault)
    requires Inv(w) && PublishEnabled(w, JournalPending(fault))
    ensures Ownership(PublishApply(w, JournalPending(fault)))
  { }

  lemma JournalPendingKeepsControl(w: World, fault: Fault)
    requires Inv(w) && PublishEnabled(w, JournalPending(fault))
    ensures Control(PublishApply(w, JournalPending(fault)))
  {
    JournalPendingKeepsBooks(w, fault);
    JournalPendingKeepsOwnership(w, fault);
  }

  lemma JournalPendingKeepsFlight(w: World, fault: Fault)
    requires Inv(w) && PublishEnabled(w, JournalPending(fault))
    ensures Flight(PublishApply(w, JournalPending(fault)))
  { }

  lemma FindsNoCommandKeeps(w: World)
    requires Inv(w) && PublishEnabled(w, FindsNoCommand)
    ensures Inv(PublishApply(w, FindsNoCommand))
  { }

  lemma CallbackFailsKeepsControl(w: World)
    requires Inv(w) && PublishEnabled(w, CallbackFails)
    ensures Control(PublishApply(w, CallbackFails))
  { }

  lemma CallbackFailsKeepsFlight(w: World)
    requires Inv(w) && PublishEnabled(w, CallbackFails)
    ensures Flight(PublishApply(w, CallbackFails))
  { }

  lemma CallbackFailsKeeps(w: World)
    requires Inv(w) && PublishEnabled(w, CallbackFails)
    ensures Inv(PublishApply(w, CallbackFails))
  {
    CallbackFailsKeepsControl(w);
    CallbackFailsKeepsFlight(w);
  }

  lemma ClearResponseKeeps(w: World)
    requires Inv(w) && PublishEnabled(w, ClearResponse)
    ensures Inv(PublishApply(w, ClearResponse))
  { }

  lemma WriteCommandKeepsBooks(w: World, fault: Fault)
    requires Inv(w) && PublishEnabled(w, WriteCommand(fault))
    ensures Books(PublishApply(w, WriteCommand(fault)))
  { }

  lemma WriteCommandKeepsOwnership(w: World, fault: Fault)
    requires Inv(w) && PublishEnabled(w, WriteCommand(fault))
    ensures Ownership(PublishApply(w, WriteCommand(fault)))
  { }

  lemma WriteCommandKeepsControl(w: World, fault: Fault)
    requires Inv(w) && PublishEnabled(w, WriteCommand(fault))
    ensures Control(PublishApply(w, WriteCommand(fault)))
  {
    WriteCommandKeepsBooks(w, fault);
    WriteCommandKeepsOwnership(w, fault);
  }

  lemma WriteCommandKeepsFlight(w: World, fault: Fault)
    requires Inv(w) && PublishEnabled(w, WriteCommand(fault))
    ensures Flight(PublishApply(w, WriteCommand(fault)))
  { }

  lemma ExpireUnwrittenKeeps(w: World)
    requires Inv(w) && PublishEnabled(w, ExpireUnwritten)
    ensures Inv(PublishApply(w, ExpireUnwritten))
  { }

  lemma UndoPendingKeepsBooks(w: World, fault: Fault)
    requires Inv(w) && PublishEnabled(w, UndoPending(fault))
    ensures Books(PublishApply(w, UndoPending(fault)))
  { }

  lemma UndoPendingKeepsOwnership(w: World, fault: Fault)
    requires Inv(w) && PublishEnabled(w, UndoPending(fault))
    ensures Ownership(PublishApply(w, UndoPending(fault)))
  { }

  lemma UndoPendingKeepsControl(w: World, fault: Fault)
    requires Inv(w) && PublishEnabled(w, UndoPending(fault))
    ensures Control(PublishApply(w, UndoPending(fault)))
  {
    UndoPendingKeepsBooks(w, fault);
    UndoPendingKeepsOwnership(w, fault);
  }

  lemma UndoPendingKeepsSingleFlight(w: World, fault: Fault)
    requires Inv(w) && PublishEnabled(w, UndoPending(fault))
    ensures var v := PublishApply(w, UndoPending(fault));
            SingleFlight(v) && AtMostOnce(v)
  { }

  lemma UndoPendingKeepsStages(w: World, fault: Fault)
    requires Inv(w) && PublishEnabled(w, UndoPending(fault))
    ensures Stages(PublishApply(w, UndoPending(fault)))
  { }

  lemma UndoPendingKeepsTruth(w: World, fault: Fault)
    requires Inv(w) && PublishEnabled(w, UndoPending(fault))
    ensures var v := PublishApply(w, UndoPending(fault));
            Withdrawal(v) && Truth(v)
  { }

  lemma UndoPendingKeepsFlight(w: World, fault: Fault)
    requires Inv(w) && PublishEnabled(w, UndoPending(fault))
    ensures Flight(PublishApply(w, UndoPending(fault)))
  {
    UndoPendingKeepsSingleFlight(w, fault);
    UndoPendingKeepsStages(w, fault);
    UndoPendingKeepsTruth(w, fault);
  }

  lemma PublishDoneKeepsControl(w: World, expired: bool)
    requires Inv(w) && PublishEnabled(w, PublishDone(expired))
    ensures Control(PublishApply(w, PublishDone(expired)))
  { }

  lemma PublishDoneKeepsFlight(w: World, expired: bool)
    requires Inv(w) && PublishEnabled(w, PublishDone(expired))
    ensures Flight(PublishApply(w, PublishDone(expired)))
  { }

  lemma PublishDoneKeeps(w: World, expired: bool)
    requires Inv(w) && PublishEnabled(w, PublishDone(expired))
    ensures Inv(PublishApply(w, PublishDone(expired)))
  {
    PublishDoneKeepsControl(w, expired);
    PublishDoneKeepsFlight(w, expired);
  }

  lemma PublishKeeps(w: World, s: PublishStep)
    requires Inv(w) && PublishEnabled(w, s)
    ensures Inv(PublishApply(w, s))
  {
    match s
    case RefusePublish(request, expired) => RefusePublishKeeps(w, request, expired);
    case EnterPublish(request) => EnterPublishKeeps(w, request);
    case JournalPending(fault) =>
      JournalPendingKeepsControl(w, fault);
      JournalPendingKeepsFlight(w, fault);
    case FindsNoCommand => FindsNoCommandKeeps(w);
    case CallbackFails => CallbackFailsKeeps(w);
    case ClearResponse => ClearResponseKeeps(w);
    case WriteCommand(fault) =>
      WriteCommandKeepsControl(w, fault);
      WriteCommandKeepsFlight(w, fault);
    case ExpireUnwritten => ExpireUnwrittenKeeps(w);
    case UndoPending(fault) =>
      UndoPendingKeepsControl(w, fault);
      UndoPendingKeepsFlight(w, fault);
    case PublishDone(expired) => PublishDoneKeeps(w, expired);
  }

  lemma SeeFenceKeeps(w: World)
    requires Inv(w) && PollEnabled(w, SeeFence)
    ensures Inv(PollApply(w, SeeFence))
  { }

  lemma PollFailsKeeps(w: World)
    requires Inv(w) && PollEnabled(w, PollFails)
    ensures Inv(PollApply(w, PollFails))
  { }

  lemma ReadResponseKeeps(w: World)
    requires Inv(w) && PollEnabled(w, ReadResponse)
    ensures Inv(PollApply(w, ReadResponse))
  { }

  lemma ExpireKeeps(w: World)
    requires Inv(w) && PollEnabled(w, Expire)
    ensures Inv(PollApply(w, Expire))
  { }

  lemma CompleteKeepsControl(w: World, fault: Fault, exit: Exit)
    requires Inv(w) && PollEnabled(w, Complete(fault, exit))
    ensures Control(PollApply(w, Complete(fault, exit)))
  { }

  lemma CompleteKeepsFlight(w: World, fault: Fault, exit: Exit)
    requires Inv(w) && PollEnabled(w, Complete(fault, exit))
    ensures Flight(PollApply(w, Complete(fault, exit)))
  { }

  lemma CompleteKeeps(w: World, fault: Fault, exit: Exit)
    requires Inv(w) && PollEnabled(w, Complete(fault, exit))
    ensures Inv(PollApply(w, Complete(fault, exit)))
  {
    CompleteKeepsControl(w, fault, exit);
    CompleteKeepsFlight(w, fault, exit);
  }

  lemma CompleteFailsKeeps(w: World)
    requires Inv(w) && PollEnabled(w, CompleteFails)
    ensures Inv(PollApply(w, CompleteFails))
  { }

  lemma ReturnResponseKeeps(w: World)
    requires Inv(w) && PollEnabled(w, ReturnResponse)
    ensures Inv(PollApply(w, ReturnResponse))
  { }

  lemma ReconcileKeepsControl(w: World, fault: Fault)
    requires Inv(w) && PollEnabled(w, Reconcile(fault))
    ensures Control(PollApply(w, Reconcile(fault)))
  { }

  lemma ReconcileKeepsFlight(w: World, fault: Fault)
    requires Inv(w) && PollEnabled(w, Reconcile(fault))
    ensures Flight(PollApply(w, Reconcile(fault)))
  { }

  lemma ReconcileKeeps(w: World, fault: Fault)
    requires Inv(w) && PollEnabled(w, Reconcile(fault))
    ensures Inv(PollApply(w, Reconcile(fault)))
  {
    ReconcileKeepsControl(w, fault);
    ReconcileKeepsFlight(w, fault);
  }

  lemma ReconcileFailsKeepsControl(w: World)
    requires Inv(w) && PollEnabled(w, ReconcileFails)
    ensures Control(PollApply(w, ReconcileFails))
  { }

  lemma ReconcileFailsKeepsFlight(w: World)
    requires Inv(w) && PollEnabled(w, ReconcileFails)
    ensures Flight(PollApply(w, ReconcileFails))
  { }

  lemma ReconcileFailsKeeps(w: World)
    requires Inv(w) && PollEnabled(w, ReconcileFails)
    ensures Inv(PollApply(w, ReconcileFails))
  {
    ReconcileFailsKeepsControl(w);
    ReconcileFailsKeepsFlight(w);
  }

  lemma GiveUpKeeps(w: World)
    requires Inv(w) && PollEnabled(w, GiveUp)
    ensures Inv(PollApply(w, GiveUp))
  { }

  lemma PollKeeps(w: World, s: PollStep)
    requires Inv(w) && PollEnabled(w, s)
    ensures Inv(PollApply(w, s))
  {
    match s
    case SeeFence => SeeFenceKeeps(w);
    case PollFails => PollFailsKeeps(w);
    case ReadResponse => ReadResponseKeeps(w);
    case Expire => ExpireKeeps(w);
    case Complete(fault, exit) => CompleteKeeps(w, fault, exit);
    case CompleteFails => CompleteFailsKeeps(w);
    case ReturnResponse => ReturnResponseKeeps(w);
    case Reconcile(fault) => ReconcileKeeps(w, fault);
    case ReconcileFails => ReconcileFailsKeeps(w);
    case GiveUp => GiveUpKeeps(w);
  }

  lemma OpenCommandKeeps(w: World)
    requires Inv(w) && WithdrawEnabled(w, OpenCommand)
    ensures Inv(WithdrawApply(w, OpenCommand))
  { }

  lemma LoseRaceKeeps(w: World)
    requires Inv(w) && WithdrawEnabled(w, LoseRace)
    ensures Inv(WithdrawApply(w, LoseRace))
  { }

  lemma MoveCommandKeeps(w: World)
    requires Inv(w) && WithdrawEnabled(w, MoveCommand)
    ensures Inv(WithdrawApply(w, MoveCommand))
  { }

  lemma VerifyKeeps(w: World)
    requires Inv(w) && WithdrawEnabled(w, Verify)
    ensures Inv(WithdrawApply(w, Verify))
  { }

  lemma RestoreKeeps(w: World)
    requires Inv(w) && WithdrawEnabled(w, Restore)
    ensures Inv(WithdrawApply(w, Restore))
  { }

  lemma RetainKeepsControl(w: World)
    requires Inv(w) && WithdrawEnabled(w, Retain)
    ensures Control(WithdrawApply(w, Retain))
  { }

  lemma RetainKeepsFlight(w: World)
    requires Inv(w) && WithdrawEnabled(w, Retain)
    ensures Flight(WithdrawApply(w, Retain))
  { }

  lemma RetainKeeps(w: World)
    requires Inv(w) && WithdrawEnabled(w, Retain)
    ensures Inv(WithdrawApply(w, Retain))
  {
    RetainKeepsControl(w);
    RetainKeepsFlight(w);
  }

  lemma DropCommandKeepsBooks(w: World, unlinked: bool)
    requires Inv(w) && WithdrawEnabled(w, DropCommand(unlinked))
    ensures Books(WithdrawApply(w, DropCommand(unlinked)))
  { }

  lemma DropCommandKeepsOwnership(w: World, unlinked: bool)
    requires Inv(w) && WithdrawEnabled(w, DropCommand(unlinked))
    ensures Ownership(WithdrawApply(w, DropCommand(unlinked)))
  { }

  lemma DropCommandKeepsControl(w: World, unlinked: bool)
    requires Inv(w) && WithdrawEnabled(w, DropCommand(unlinked))
    ensures Control(WithdrawApply(w, DropCommand(unlinked)))
  {
    DropCommandKeepsBooks(w, unlinked);
    DropCommandKeepsOwnership(w, unlinked);
  }

  lemma DropCommandKeepsFlight(w: World, unlinked: bool)
    requires Inv(w) && WithdrawEnabled(w, DropCommand(unlinked))
    ensures Flight(WithdrawApply(w, DropCommand(unlinked)))
  { }

  lemma UndoWithdrawnKeepsControl(w: World, fault: Fault)
    requires Inv(w) && WithdrawEnabled(w, UndoWithdrawn(fault))
    ensures Control(WithdrawApply(w, UndoWithdrawn(fault)))
  { }

  lemma UndoWithdrawnKeepsFlight(w: World, fault: Fault)
    requires Inv(w) && WithdrawEnabled(w, UndoWithdrawn(fault))
    ensures Flight(WithdrawApply(w, UndoWithdrawn(fault)))
  { }

  lemma WithdrawKeeps(w: World, s: WithdrawStep)
    requires Inv(w) && WithdrawEnabled(w, s)
    ensures Inv(WithdrawApply(w, s))
  {
    match s
    case OpenCommand => OpenCommandKeeps(w);
    case LoseRace => LoseRaceKeeps(w);
    case MoveCommand => MoveCommandKeeps(w);
    case Verify => VerifyKeeps(w);
    case Restore => RestoreKeeps(w);
    case Retain => RetainKeeps(w);
    case DropCommand(unlinked) =>
      DropCommandKeepsControl(w, unlinked);
      DropCommandKeepsFlight(w, unlinked);
    case UndoWithdrawn(fault) =>
      UndoWithdrawnKeepsControl(w, fault);
      UndoWithdrawnKeepsFlight(w, fault);
  }

  lemma MarkUncertainKeeps(w: World, fault: Fault)
    requires Inv(w) && MarkEnabled(w, MarkUncertain(fault))
    ensures Inv(MarkApply(w, MarkUncertain(fault)))
  { }

  lemma NestKeeps(w: World, fault: Fault)
    requires Inv(w) && MarkEnabled(w, Nest(fault))
    ensures Inv(MarkApply(w, Nest(fault)))
  { }

  lemma GuardStartupKeepsControl(w: World, fault: Fault)
    requires Inv(w) && MarkEnabled(w, GuardStartup(fault))
    ensures Control(MarkApply(w, GuardStartup(fault)))
  { }

  lemma GuardStartupKeepsFlight(w: World, fault: Fault)
    requires Inv(w) && MarkEnabled(w, GuardStartup(fault))
    ensures Flight(MarkApply(w, GuardStartup(fault)))
  { }

  lemma GuardStartupKeeps(w: World, fault: Fault)
    requires Inv(w) && MarkEnabled(w, GuardStartup(fault))
    ensures Inv(MarkApply(w, GuardStartup(fault)))
  {
    GuardStartupKeepsControl(w, fault);
    GuardStartupKeepsFlight(w, fault);
  }

  lemma SpawnKeeps(w: World)
    requires Inv(w) && MarkEnabled(w, Spawn)
    ensures Inv(MarkApply(w, Spawn))
  { }

  lemma EndStartupKeeps(w: World)
    requires Inv(w) && MarkEnabled(w, EndStartup)
    ensures Inv(MarkApply(w, EndStartup))
  { }

  lemma MarkKeeps(w: World, s: MarkStep)
    requires Inv(w) && MarkEnabled(w, s)
    ensures Inv(MarkApply(w, s))
  {
    match s
    case MarkUncertain(fault) => MarkUncertainKeeps(w, fault);
    case Nest(fault) => NestKeeps(w, fault);
    case GuardStartup(fault) => GuardStartupKeeps(w, fault);
    case Spawn => SpawnKeeps(w);
    case EndStartup => EndStartupKeeps(w);
  }

  lemma EnterFinishKeeps(w: World, failed: bool)
    requires Inv(w) && FinishEnabled(w, EnterFinish(failed))
    ensures Inv(FinishApply(w, EnterFinish(failed)))
  { }

  lemma FinishKeepKeepsControl(w: World, fault: Fault)
    requires Inv(w) && FinishEnabled(w, FinishKeep(fault))
    ensures Control(FinishApply(w, FinishKeep(fault)))
  { }

  lemma FinishKeepKeepsFlight(w: World, fault: Fault)
    requires Inv(w) && FinishEnabled(w, FinishKeep(fault))
    ensures Flight(FinishApply(w, FinishKeep(fault)))
  { }

  lemma FinishRetireKeepsBooks(w: World, fault: Fault, exit: Exit)
    requires Inv(w) && FinishEnabled(w, FinishRetire(fault, exit))
    ensures Books(FinishApply(w, FinishRetire(fault, exit)))
  { }

  lemma FinishRetireKeepsOwnership(w: World, fault: Fault, exit: Exit)
    requires Inv(w) && FinishEnabled(w, FinishRetire(fault, exit))
    ensures Ownership(FinishApply(w, FinishRetire(fault, exit)))
  { }

  lemma FinishRetireKeepsControl(w: World, fault: Fault, exit: Exit)
    requires Inv(w) && FinishEnabled(w, FinishRetire(fault, exit))
    ensures Control(FinishApply(w, FinishRetire(fault, exit)))
  {
    FinishRetireKeepsBooks(w, fault, exit);
    FinishRetireKeepsOwnership(w, fault, exit);
  }

  lemma FinishRetireKeepsFlight(w: World, fault: Fault, exit: Exit)
    requires Inv(w) && FinishEnabled(w, FinishRetire(fault, exit))
    ensures Flight(FinishApply(w, FinishRetire(fault, exit)))
  { }

  lemma FinishRetireKeeps(w: World, fault: Fault, exit: Exit)
    requires Inv(w) && FinishEnabled(w, FinishRetire(fault, exit))
    ensures Inv(FinishApply(w, FinishRetire(fault, exit)))
  {
    FinishRetireKeepsControl(w, fault, exit);
    FinishRetireKeepsFlight(w, fault, exit);
  }

  lemma FinishRestoreKeepsBooks(w: World, fault: Fault)
    requires Inv(w) && FinishEnabled(w, FinishRestore(fault))
    ensures Books(FinishApply(w, FinishRestore(fault)))
  { }

  lemma FinishRestoreKeepsOwnership(w: World, fault: Fault)
    requires Inv(w) && FinishEnabled(w, FinishRestore(fault))
    ensures Ownership(FinishApply(w, FinishRestore(fault)))
  { }

  lemma FinishRestoreKeepsControl(w: World, fault: Fault)
    requires Inv(w) && FinishEnabled(w, FinishRestore(fault))
    ensures Control(FinishApply(w, FinishRestore(fault)))
  {
    FinishRestoreKeepsBooks(w, fault);
    FinishRestoreKeepsOwnership(w, fault);
  }

  lemma FinishRestoreKeepsFlight(w: World, fault: Fault)
    requires Inv(w) && FinishEnabled(w, FinishRestore(fault))
    ensures Flight(FinishApply(w, FinishRestore(fault)))
  { }

  lemma FinishRestoreKeeps(w: World, fault: Fault)
    requires Inv(w) && FinishEnabled(w, FinishRestore(fault))
    ensures Inv(FinishApply(w, FinishRestore(fault)))
  {
    FinishRestoreKeepsControl(w, fault);
    FinishRestoreKeepsFlight(w, fault);
  }

  lemma FinishFencedKeeps(w: World)
    requires Inv(w) && FinishEnabled(w, FinishFenced)
    ensures Inv(FinishApply(w, FinishFenced))
  { }

  lemma FinishFailsKeeps(w: World)
    requires Inv(w) && FinishEnabled(w, FinishFails)
    ensures Inv(FinishApply(w, FinishFails))
  { }

  lemma RollbackKeeps(w: World)
    requires Inv(w) && FinishEnabled(w, Rollback)
    ensures Inv(FinishApply(w, Rollback))
  { }

  lemma RollbackFailsKeeps(w: World, gone: Gone, fault: Fault)
    requires Inv(w) && FinishEnabled(w, RollbackFails(gone, fault))
    ensures Inv(FinishApply(w, RollbackFails(gone, fault)))
  {
    RollbackFailsKeepsControl(w, gone, fault);
  }

  lemma RollbackFailsKeepsControl(w: World, gone: Gone, fault: Fault)
    requires Inv(w) && FinishEnabled(w, RollbackFails(gone, fault))
    ensures Control(FinishApply(w, RollbackFails(gone, fault)))
  {
    RollbackFailsKeepsNames(w, gone, fault);
  }

  lemma RollbackFailsKeepsNames(w: World, gone: Gone, fault: Fault)
    requires Inv(w) && FinishEnabled(w, RollbackFails(gone, fault))
    ensures var v := FinishApply(w, RollbackFails(gone, fault));
            Locks(v) && Names(v) && Ownership(v)
  { }

  lemma FinishKeeps(w: World, s: FinishStep)
    requires Inv(w) && FinishEnabled(w, s)
    ensures Inv(FinishApply(w, s))
  {
    match s
    case EnterFinish(failed) => EnterFinishKeeps(w, failed);
    case FinishKeep(fault) =>
      FinishKeepKeepsControl(w, fault);
      FinishKeepKeepsFlight(w, fault);
    case FinishRetire(fault, exit) => FinishRetireKeeps(w, fault, exit);
    case FinishRestore(fault) => FinishRestoreKeeps(w, fault);
    case FinishFenced => FinishFencedKeeps(w);
    case FinishFails => FinishFailsKeeps(w);
    case Rollback => RollbackKeeps(w);
    case RollbackFails(gone, fault) => RollbackFailsKeeps(w, gone, fault);
  }

  lemma RecoverBeginKeepsControl(w: World, fault: Fault)
    requires Inv(w) && RecoveryEnabled(w, RecoverBegin(fault))
    ensures Control(RecoveryApply(w, RecoverBegin(fault)))
  { }

  lemma RecoverBeginKeepsFlight(w: World, fault: Fault)
    requires Inv(w) && RecoveryEnabled(w, RecoverBegin(fault))
    ensures Flight(RecoveryApply(w, RecoverBegin(fault)))
  { }

  lemma TerminatedKeeps(w: World)
    requires Inv(w) && RecoveryEnabled(w, Terminated)
    ensures Inv(RecoveryApply(w, Terminated))
  { }

  lemma RecoverEnterKeeps(w: World)
    requires Inv(w) && RecoveryEnabled(w, RecoverEnter)
    ensures Inv(RecoveryApply(w, RecoverEnter))
  { }

  lemma RecoverSweepFailedKeepsControl(w: World, kept: seq<Artifact>, fault: Fault)
    requires Inv(w) && RecoveryEnabled(w, RecoverSweepFailed(kept, fault))
    ensures Control(RecoveryApply(w, RecoverSweepFailed(kept, fault)))
  { }

  lemma RecoverSweepFailedKeepsFlight(w: World, kept: seq<Artifact>, fault: Fault)
    requires Inv(w) && RecoveryEnabled(w, RecoverSweepFailed(kept, fault))
    ensures Flight(RecoveryApply(w, RecoverSweepFailed(kept, fault)))
  { }

  lemma RecoverSweepFailedKeeps(w: World, kept: seq<Artifact>, fault: Fault)
    requires Inv(w) && RecoveryEnabled(w, RecoverSweepFailed(kept, fault))
    ensures Inv(RecoveryApply(w, RecoverSweepFailed(kept, fault)))
  {
    RecoverSweepFailedKeepsControl(w, kept, fault);
    RecoverSweepFailedKeepsFlight(w, kept, fault);
  }

  lemma RecoverFinishKeepsControl(w: World, fault: Fault)
    requires Inv(w) && RecoveryEnabled(w, RecoverFinish(fault))
    ensures Control(RecoveryApply(w, RecoverFinish(fault)))
  { }

  lemma RecoverFinishKeepsFlight(w: World, fault: Fault)
    requires Inv(w) && RecoveryEnabled(w, RecoverFinish(fault))
    ensures Flight(RecoveryApply(w, RecoverFinish(fault)))
  { }

  lemma RecoverFinishKeeps(w: World, fault: Fault)
    requires Inv(w) && RecoveryEnabled(w, RecoverFinish(fault))
    ensures Inv(RecoveryApply(w, RecoverFinish(fault)))
  {
    RecoverFinishKeepsControl(w, fault);
    RecoverFinishKeepsFlight(w, fault);
  }

  lemma RecoveryGoneKeeps(w: World)
    requires Inv(w) && RecoveryEnabled(w, RecoveryGone)
    ensures Inv(RecoveryApply(w, RecoveryGone))
  { }

  lemma RecoveryKeeps(w: World, s: RecoveryStep)
    requires Inv(w) && RecoveryEnabled(w, s)
    ensures Inv(RecoveryApply(w, s))
  {
    match s
    case RecoverBegin(fault) =>
      RecoverBeginKeepsControl(w, fault);
      RecoverBeginKeepsFlight(w, fault);
    case Terminated => TerminatedKeeps(w);
    case RecoverEnter => RecoverEnterKeeps(w);
    case RecoverSweepFailed(kept, fault) => RecoverSweepFailedKeeps(w, kept, fault);
    case RecoverFinish(fault) => RecoverFinishKeeps(w, fault);
    case RecoveryGone => RecoveryGoneKeeps(w);
  }

  /** Every step of the machine keeps the invariant. */
  lemma StepKeeps(w: World, s: Step)
    requires Inv(w) && Enabled(w, s)
    ensures Inv(Apply(w, s))
  {
    match s
    case OfBridge(t) => BridgeKeeps(w, t);
    case OfEntry(t) => EntryKeeps(w, t);
    case OfStaging(t) => StagingKeeps(w, t);
    case OfPublish(t) => PublishKeeps(w, t);
    case OfPoll(t) => PollKeeps(w, t);
    case OfWithdraw(t) => WithdrawKeeps(w, t);
    case OfMark(t) => MarkKeeps(w, t);
    case OfFinish(t) => FinishKeeps(w, t);
    case OfRecovery(t) => RecoveryKeeps(w, t);
  }

  // ----- Reports stay sound -----

  lemma BridgeBars(w: World, s: BridgeStep, r: Request)
    requires BridgeEnabled(w, s) && CannotRun(w, r)
    ensures CannotRun(BridgeApply(w, s), r)
  { }

  lemma EntryBars(w: World, s: EntryStep, r: Request)
    requires EntryEnabled(w, s) && CannotRun(w, r)
    ensures CannotRun(EntryApply(w, s), r)
  { }

  lemma StagingBars(w: World, s: StagingStep, r: Request)
    requires StagingEnabled(w, s) && CannotRun(w, r)
    ensures CannotRun(StagingApply(w, s), r)
  { }

  lemma JournalPendingBars(w: World, fault: Fault, r: Request)
    requires PublishEnabled(w, JournalPending(fault)) && CannotRun(w, r)
    ensures CannotRun(PublishApply(w, JournalPending(fault)), r)
  { }

  lemma UndoPendingBars(w: World, fault: Fault, r: Request)
    requires PublishEnabled(w, UndoPending(fault)) && CannotRun(w, r)
    ensures CannotRun(PublishApply(w, UndoPending(fault)), r)
  { }

  lemma PublishBars(w: World, s: PublishStep, r: Request)
    requires PublishEnabled(w, s) && CannotRun(w, r)
    ensures CannotRun(PublishApply(w, s), r)
  {
    match s
    case JournalPending(fault) => JournalPendingBars(w, fault, r);
    case UndoPending(fault) => UndoPendingBars(w, fault, r);
    case _ =>
  }

  lemma PollBars(w: World, s: PollStep, r: Request)
    requires PollEnabled(w, s) && CannotRun(w, r)
    ensures CannotRun(PollApply(w, s), r)
  { }

  lemma WithdrawBars(w: World, s: WithdrawStep, r: Request)
    requires WithdrawEnabled(w, s) && CannotRun(w, r) && Withdrawal(w)
    ensures CannotRun(WithdrawApply(w, s), r)
  { }

  lemma MarkBars(w: World, s: MarkStep, r: Request)
    requires MarkEnabled(w, s) && CannotRun(w, r)
    ensures CannotRun(MarkApply(w, s), r)
  { }

  lemma FinishBars(w: World, s: FinishStep, r: Request)
    requires FinishEnabled(w, s) && CannotRun(w, r)
    ensures CannotRun(FinishApply(w, s), r)
  { }

  lemma RecoveryBars(w: World, s: RecoveryStep, r: Request)
    requires RecoveryEnabled(w, s) && CannotRun(w, r)
    ensures CannotRun(RecoveryApply(w, s), r)
  { }

  lemma BridgeTells(w: World, s: BridgeStep, p: Report)
    requires BridgeEnabled(w, s)
    requires p in BridgeApply(w, s).log.reports && (p in w.log.reports ==> SoundReport(w, p))
    ensures SoundReport(BridgeApply(w, s), p)
  {
    if p in w.log.reports && CannotRun(w, p.request) {
      BridgeBars(w, s, p.request);
    }
  }

  lemma EntryTells(w: World, s: EntryStep, p: Report)
    requires EntryEnabled(w, s)
    requires p in EntryApply(w, s).log.reports && (p in w.log.reports ==> SoundReport(w, p))
    ensures SoundReport(EntryApply(w, s), p)
  {
    if p in w.log.reports && CannotRun(w, p.request) {
      EntryBars(w, s, p.request);
    }
  }

  lemma StagingTells(w: World, s: StagingStep, p: Report)
    requires StagingEnabled(w, s)
    requires p in StagingApply(w, s).log.reports && (p in w.log.reports ==> SoundReport(w, p))
    ensures SoundReport(StagingApply(w, s), p)
  {
    if p in w.log.reports && CannotRun(w, p.request) {
      StagingBars(w, s, p.request);
    }
  }

  lemma JournalPendingKeepsTold(w: World, fault: Fault, p: Report)
    requires PublishEnabled(w, JournalPending(fault))
    requires p in PublishApply(w, JournalPending(fault)).log.reports && p in w.log.reports && SoundReport(w, p)
    ensures SoundReport(PublishApply(w, JournalPending(fault)), p)
  {
    if CannotRun(w, p.request) {
      JournalPendingBars(w, fault, p.request);
    }
  }

  lemma UndoPendingKeepsTold(w: World, fault: Fault, p: Report)
    requires PublishEnabled(w, UndoPending(fault))
    requires p in PublishApply(w, UndoPending(fault)).log.reports && p in w.log.reports && SoundReport(w, p)
    ensures SoundReport(PublishApply(w, UndoPending(fault)), p)
  {
    if CannotRun(w, p.request) {
      UndoPendingBars(w, fault, p.request);
    }
  }

  lemma PublishKeepsTold(w: World, s: PublishStep, p: Report)
    requires PublishEnabled(w, s)
    requires p in PublishApply(w, s).log.reports && p in w.log.reports && SoundReport(w, p)
    ensures SoundReport(PublishApply(w, s), p)
  {
    match s
    case JournalPending(fault) => JournalPendingKeepsTold(w, fault, p);
    case UndoPending(fault) => UndoPendingKeepsTold(w, fault, p);
    case _ =>
      if CannotRun(w, p.request) {
        PublishBars(w, s, p.request);
      }
  }

  lemma JournalPendingTells(w: World, fault: Fault, p: Report)
    requires PublishEnabled(w, JournalPending(fault)) && Histories(w)
    requires p in PublishApply(w, JournalPending(fault)).log.reports && p !in w.log.reports
    ensures SoundReport(PublishApply(w, JournalPending(fault)), p)
  { }

  lemma UndoPendingTells(w: World, fault: Fault, p: Report)
    requires PublishEnabled(w, UndoPending(fault)) && Histories(w)
    requires p in PublishApply(w, UndoPending(fault)).log.reports && p !in w.log.reports
    ensures SoundReport(PublishApply(w, UndoPending(fault)), p)
  { }

  lemma WriteCommandTells(w: World, fault: Fault, p: Report)
    requires PublishEnabled(w, WriteCommand(fault)) && Histories(w)
    requires p in PublishApply(w, WriteCommand(fault)).log.reports && p !in w.log.reports
    ensures SoundReport(PublishApply(w, WriteCommand(fault)), p)
  { }

  lemma PublishTellsNew(w: World, s: PublishStep, p: Report)
    requires PublishEnabled(w, s) && Histories(w)
    requires p in PublishApply(w, s).log.reports && p !in w.log.reports
    ensures SoundReport(PublishApply(w, s), p)
  {
    match s
    case JournalPending(fault) => JournalPendingTells(w, fault, p);
    case UndoPending(fault) => UndoPendingTells(w, fault, p);
    case WriteCommand(fault) => WriteCommandTells(w, fault, p);
    case _ =>
  }

  lemma PublishTells(w: World, s: PublishStep, p: Report)
    requires PublishEnabled(w, s) && Histories(w)
    requires p in PublishApply(w, s).log.reports && (p in w.log.reports ==> SoundReport(w, p))
    ensures SoundReport(PublishApply(w, s), p)
  {
    if p in w.log.reports {
      PublishKeepsTold(w, s, p);
    } else {
      PublishTellsNew(w, s, p);
    }
  }

  lemma PollKeepsTold(w: World, s: PollStep, p: Report)
    requires PollEnabled(w, s)
    requires p in PollApply(w, s).log.reports && p in w.log.reports && SoundReport(w, p)
    ensures SoundReport(PollApply(w, s), p)
  {
    if CannotRun(w, p.request) {
      PollBars(w, s, p.request);
    }
  }

  lemma CompleteTells(w: World, fault: Fault, exit: Exit, p: Report)
    requires PollEnabled(w, Complete(fault, exit)) && Truth(w) && Histories(w)
    requires p in PollApply(w, Complete(fault, exit)).log.reports && p !in w.log.reports
    ensures SoundReport(PollApply(w, Complete(fault, exit)), p)
  { }

  lemma ReconcileTells(w: World, fault: Fault, p: Report)
    requires PollEnabled(w, Reconcile(fault)) && Truth(w) && Histories(w)
    requires p in PollApply(w, Reconcile(fault)).log.reports && p !in w.log.reports
    ensures SoundReport(PollApply(w, Reconcile(fault)), p)
  { }

  lemma PollTellsNew(w: World, s: PollStep, p: Report)
    requires PollEnabled(w, s) && Truth(w) && Histories(w)
    requires p in PollApply(w, s).log.reports && p !in w.log.reports
    ensures SoundReport(PollApply(w, s), p)
  {
    match s
    case Complete(fault, exit) => CompleteTells(w, fault, exit, p);
    case Reconcile(fault) => ReconcileTells(w, fault, p);
    case _ =>
  }

  lemma PollTells(w: World, s: PollStep, p: Report)
    requires PollEnabled(w, s) && Truth(w) && Histories(w)
    requires p in PollApply(w, s).log.reports && (p in w.log.reports ==> SoundReport(w, p))
    ensures SoundReport(PollApply(w, s), p)
  {
    if p in w.log.reports {
      PollKeepsTold(w, s, p);
    } else {
      PollTellsNew(w, s, p);
    }
  }

  lemma WithdrawKeepsTold(w: World, s: WithdrawStep, p: Report)
    requires WithdrawEnabled(w, s) && Withdrawal(w)
    requires p in WithdrawApply(w, s).log.reports && p in w.log.reports && SoundReport(w, p)
    ensures SoundReport(WithdrawApply(w, s), p)
  {
    if CannotRun(w, p.request) {
      WithdrawBars(w, s, p.request);
    }
  }

  lemma UndoWithdrawnTells(w: World, fault: Fault, p: Report)
    requires WithdrawEnabled(w, UndoWithdrawn(fault)) && Withdrawal(w) && Histories(w)
    requires p in WithdrawApply(w, UndoWithdrawn(fault)).log.reports && p !in w.log.reports
    ensures SoundReport(WithdrawApply(w, UndoWithdrawn(fault)), p)
  { }

  lemma DropCommandTells(w: World, unlinked: bool, p: Report)
    requires WithdrawEnabled(w, DropCommand(unlinked)) && Withdrawal(w) && Histories(w)
    requires p in WithdrawApply(w, DropCommand(unlinked)).log.reports && p !in w.log.reports
    ensures SoundReport(WithdrawApply(w, DropCommand(unlinked)), p)
  { }

  lemma WithdrawTellsNew(w: World, s: WithdrawStep, p: Report)
    requires WithdrawEnabled(w, s) && Withdrawal(w) && Histories(w)
    requires p in WithdrawApply(w, s).log.reports && p !in w.log.reports
    ensures SoundReport(WithdrawApply(w, s), p)
  {
    match s
    case UndoWithdrawn(fault) => UndoWithdrawnTells(w, fault, p);
    case DropCommand(unlinked) => DropCommandTells(w, unlinked, p);
    case _ =>
  }

  lemma WithdrawTells(w: World, s: WithdrawStep, p: Report)
    requires WithdrawEnabled(w, s) && Withdrawal(w) && Histories(w)
    requires p in WithdrawApply(w, s).log.reports && (p in w.log.reports ==> SoundReport(w, p))
    ensures SoundReport(WithdrawApply(w, s), p)
  {
    if p in w.log.reports {
      WithdrawKeepsTold(w, s, p);
    } else {
      WithdrawTellsNew(w, s, p);
    }
  }

  lemma MarkTells(w: World, s: MarkStep, p: Report)
    requires MarkEnabled(w, s)
    requires p in MarkApply(w, s).log.reports && (p in w.log.reports ==> SoundReport(w, p))
    ensures SoundReport(MarkApply(w, s), p)
  {
    if p in w.log.reports && CannotRun(w, p.request) {
      MarkBars(w, s, p.request);
    }
  }

  lemma FinishKeepsTold(w: World, s: FinishStep, p: Report)
    requires FinishEnabled(w, s)
    requires p in FinishApply(w, s).log.reports && p in w.log.reports && SoundReport(w, p)
    ensures SoundReport(FinishApply(w, s), p)
  {
    if CannotRun(w, p.request) {
      FinishBars(w, s, p.request);
    }
  }

  lemma FinishRetireTells(w: World, fault: Fault, exit: Exit, p: Report)
    requires FinishEnabled(w, FinishRetire(fault, exit)) && Truth(w) && Histories(w)
    requires p in FinishApply(w, FinishRetire(fault, exit)).log.reports && p !in w.log.reports
    ensures SoundReport(FinishApply(w, FinishRetire(fault, exit)), p)
  { }

  lemma FinishTellsNew(w: World, s: FinishStep, p: Report)
    requires FinishEnabled(w, s) && Truth(w) && Histories(w)
    requires p in FinishApply(w, s).log.reports && p !in w.log.reports
    ensures SoundReport(FinishApply(w, s), p)
  {
    match s
    case FinishRetire(fault, exit) => FinishRetireTells(w, fault, exit, p);
    case _ =>
  }

  lemma FinishTells(w: World, s: FinishStep, p: Report)
    requires FinishEnabled(w, s) && Truth(w) && Histories(w)
    requires p in FinishApply(w, s).log.reports && (p in w.log.reports ==> SoundReport(w, p))
    ensures SoundReport(FinishApply(w, s), p)
  {
    if p in w.log.reports {
      FinishKeepsTold(w, s, p);
    } else {
      FinishTellsNew(w, s, p);
    }
  }

  lemma RecoveryTells(w: World, s: RecoveryStep, p: Report)
    requires RecoveryEnabled(w, s)
    requires p in RecoveryApply(w, s).log.reports && (p in w.log.reports ==> SoundReport(w, p))
    ensures SoundReport(RecoveryApply(w, s), p)
  {
    if p in w.log.reports && CannotRun(w, p.request) {
      RecoveryBars(w, s, p.request);
    }
  }
}
