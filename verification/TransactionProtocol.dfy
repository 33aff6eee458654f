/**
  The per-session transaction protocol as a state machine. Every atomic filesystem effect is one
  step, so a crash or a competing step can fall between any two of them.
 */
module TransactionProtocol {
  import opened Basics
  import opened BridgeReply
  import opened TransactionWorld

  // ----- The bridge, and outside programs that replace files. -----

  datatype BridgeStep =
    | Claim | Reject(shape: Handler, encodable: bool, fallback: bool) | Start
    | Return(handler: Handler, encodable: bool, fallback: bool) | Respond(written: bool) | Die
    | Beat(heartbeat: Heartbeat) | ForeignPut | ForeignStaging(path: nat)

  function AfterReply(reply: Option<Response>): Bridge {
    if reply.Some? then Replying(reply.value) else Idle
  }

  predicate BridgeEnabled(w: World, s: BridgeStep) {
    match s
    case Claim => w.bridge.Idle? && w.command.Some?
    case Reject(_, _, _) => w.bridge.Claimed?
    case Start => w.bridge.Claimed?
    case Return(_, _, _) => w.bridge.Executing?
    case Respond(_) => w.bridge.Replying?
    case Die => !w.bridge.NotStarted? && !w.bridge.Dead?
    case Beat(h) => h == RenameV1 ==> w.renames
    case ForeignPut => true
    case ForeignStaging(_) => true
  }

  function BridgeApply(w: World, s: BridgeStep): World
    requires BridgeEnabled(w, s)
  {
    match s
    case Claim =>
      // os.rename(command_path, claimed_path); a bridge without the handshake reads the file in place
      w.(bridge := Claimed(w.command.value),
         command := if w.renames then None else w.command,
         log := w.log.(taken := w.log.taken + {w.command.value.inode}))
    case Reject(shape, encodable, fallback) =>
      w.(bridge := AfterReply(Reply(None, true, shape, encodable, fallback)),
         command := if w.renames then w.command else None)
    case Start =>
      var c := w.bridge.command;
      w.(bridge := Executing(c),
         command := if w.renames then w.command else None,
         log := if c.request.Some? then w.log.(executed := w.log.executed + multiset{c.request.value}) else w.log)
    case Return(handler, encodable, fallback) =>
      var c := w.bridge.command;
      w.(bridge := AfterReply(Reply(c.request, false, handler, encodable, fallback)),
         log := if handler == Returned && c.request.Some?
                then w.log.(returned := w.log.returned + {c.request.value}) else w.log)
    case Respond(written) =>
      var reply := w.bridge.reply;
      w.(bridge := Idle,
         response := if written then Some(reply) else w.response,
         log := if reply.id.Some? then w.log.(replied := w.log.replied + {reply.id.value}) else w.log)
    case Die => w.(bridge := Dead)
    case Beat(h) => w.(heartbeat := h)
    case ForeignPut =>
      FreshInode(w.(command := Some(Command(w.next.inode, None))))
    case ForeignStaging(path) =>
      FreshInode(w.(staging := w.staging[path := w.next.inode]))
  }

  // ----- Taking the operation lock and admitting an operation; losing the worker. -----

  datatype EntryStep =
    | Acquire(created: bool) | Initialise(fault: Fault) | Reclaim | Admit(composite: bool, fault: Fault)
    | WorkerGone

  predicate EntryEnabled(w: World, s: EntryStep) {
    match s
    case Acquire(created) =>
      && w.worker.None? && w.guard == Free && !w.removed
      && (created ==> w.journal.None? && w.bridge.NotStarted?)
    case Initialise(_) => At(w, Entering) && w.journal.None? && !w.worker.value.created
    case Reclaim =>
      At(w, Entering) && IsReady(w) && HasOperation(w) && Reclaimable(Op(w), w.response)
    case Admit(_, _) =>
      || (At(w, Entering) && w.journal.None? && w.worker.value.created)
      || (At(w, Entering) && IsReady(w) && !HasOperation(w))
      || (At(w, Reclaiming) && HasOperation(w))
    case WorkerGone => w.worker.Some?
  }

  function EntryApply(w: World, s: EntryStep): World
    requires EntryEnabled(w, s)
  {
    match s
    case Acquire(created) =>
      w.(worker := Some(Worker(w.next.operation, 0, created, None, Entering)),
         guard := ByWorker, next := w.next.(operation := w.next.operation + 1))
    case Initialise(fault) =>
      var v := FreshGeneration(Persist(w, Journal(w.next.generation, Ready, None), fault));
      if fault == Clean then v else Leave(v)
    case Reclaim => Go(w, Reclaiming)
    case Admit(composite, fault) =>
      var generation := if w.journal.Some? then w.journal.value.generation else w.next.generation;
      var v := FreshGeneration(
                 Persist(w, Journal(generation, Ready, Some(NewOperation(w.worker.value.id, composite))), fault));
      if fault == Clean then
        Back(v.(worker := Some(w.worker.value.(generation := generation))), Holding)
      else
        Leave(v)
    case WorkerGone =>
      var pc := w.worker.value.pc;
      Leave(if pc.WithdrawMoved? || pc.WithdrawVerified? then w.(retained := w.retained + {pc.moved}) else w)
  }

  /** The answer a finishing worker still has to return; such a worker staged no files. */
  function Answering(w: World): Option<Answer> {
    if w.worker.Some? && w.worker.value.pc.Finishing? then w.worker.value.pc.answer else None
  }

  // ----- Screenshot staging files. -----

  datatype StagingStep =
    | StageCreate(path: nat) | StageCommit(fault: Fault, expired: bool) | Unstage | UnstageFails(fault: Fault)
    | PublishShot(artifact: Artifact, replaced: bool)
    | Sweep(artifact: Artifact) | SweepFailed(kept: seq<Artifact>, fault: Fault)

  predicate StagingEnabled(w: World, s: StagingStep) {
    match s
    case StageCreate(path) =>
      AtRest(w, Holding) && Owned(w) && Resolved(Op(w)) && path !in w.staging
    case StageCommit(_, _) => w.worker.Some? && w.worker.value.pc.Staging? && HasOperation(w)
    case Unstage =>
      && w.worker.Some? && w.worker.value.pc.Unstaging?
      && var a := w.worker.value.pc.artifact; a.path in w.staging && w.staging[a.path] == a.inode
    case UnstageFails(_) => w.worker.Some? && w.worker.value.pc.Unstaging? && HasOperation(w)
    case PublishShot(a, _) =>
      && AtRest(w, Holding) && Owned(w) && Resolved(Op(w)) && a in Op(w).artifacts
      && a.path in w.staging && w.staging[a.path] == a.inode
    case Sweep(a) =>
      MaySweep(w) && a in Op(w).artifacts && a.path in w.staging && w.staging[a.path] == a.inode
    case SweepFailed(kept, _) =>
      w.guard == ByWorker && MaySweep(w) && KeptFrom(kept, Op(w).artifacts) && Answering(w).None?
  }

  function Remember(artifacts: seq<Artifact>, a: Artifact): seq<Artifact> {
    if a in artifacts then artifacts else artifacts + [a]
  }

  function StagingApply(w: World, s: StagingStep): World
    requires StagingEnabled(w, s)
  {
    match s
    case StageCreate(path) =>
      Enter(FreshInode(w.(staging := w.staging[path := w.next.inode])),
            Staging(Artifact(path, w.next.inode, None)))
    case StageCommit(fault, expired) =>
      var a := w.worker.value.pc.artifact;
      var v := PersistOp(w, Op(w).(artifacts := Op(w).artifacts + [a]), fault);
      if fault == Clean && !expired then Back(v, Holding) else Go(v, Unstaging(a))
    case Unstage => Back(w.(staging := w.staging - {w.worker.value.pc.artifact.path}), Holding)
    case UnstageFails(fault) =>
      // the file stays, and the journal is asked to remember it
      var a := w.worker.value.pc.artifact;
      Back(PersistOp(w, Op(w).(artifacts := Remember(Op(w).artifacts, a)), fault), Holding)
    case PublishShot(a, replaced) =>
      if replaced then w.(staging := w.staging - {a.path}) else w
    case Sweep(a) => w.(staging := w.staging - {a.path})
    case SweepFailed(kept, fault) => Leave(PersistOp(w, Op(w).(artifacts := kept), fault))
  }

  // ----- `Transaction.publish` and its callback. -----

  datatype PublishStep =
    | RefusePublish(request: Request, expired: bool) | EnterPublish(request: Request) | JournalPending(fault: Fault)
    | FindsNoCommand | CallbackFails | ClearResponse | WriteCommand(fault: Fault) | ExpireUnwritten
    | UndoPending(fault: Fault) | PublishDone(expired: bool)

  /** `withdraw` and the unpublished branch of `publish` restore the entry from before the request. */
  predicate CanRestoreJournal(w: World) {
    w.worker.Some? && HasOperation(w) && w.worker.value.pendingStarted.Some?
  }

  function RestoreJournal(w: World, r: Request, fault: Fault): World
    requires CanRestoreJournal(w)
  {
    var v := PersistOp(w, WithoutPending(Op(w), r, w.worker.value.pendingStarted.value), fault);
    if fault == Clean then v.(worker := Some(w.worker.value.(pendingStarted := None))) else v
  }

  function Issue(w: World, r: Request): World {
    w.(log := w.log.(issued := w.log.issued + {r}))
  }

  function PlaceCommand(w: World, r: Request): World {
    FreshInode(w.(command := Some(Command(w.next.inode, Some(r))),
                  log := w.log.(published := w.log.published[r := w.next.inode])))
  }

  /** The label of a refusal: a busy lock and a lost operation are `unknown`, although nothing was sent. */
  function RefusalOutcome(w: World, expired: bool): Outcome {
    if expired || SeesFence(w) || (w.guard == Free && Owned(w)) then NotExecuted else Unknown
  }

  predicate PublishEnabled(w: World, s: PublishStep) {
    match s
    case RefusePublish(r, _) => At(w, Holding) && r !in w.log.issued
    case EnterPublish(r) => AtRest(w, Holding) && r !in w.log.issued && Owned(w) && Resolved(Op(w))
    case JournalPending(_) => w.worker.Some? && w.worker.value.pc.PublishEntered? && HasOperation(w)
    case FindsNoCommand => w.worker.Some? && w.worker.value.pc.PublishJournaled? && w.command.None?
    case CallbackFails =>
      || (w.worker.Some? && w.worker.value.pc.PublishJournaled? && w.command.Some?)
      || (w.worker.Some? && w.worker.value.pc.PublishCleared?)
    case ClearResponse => w.worker.Some? && w.worker.value.pc.PublishCleared?
    case WriteCommand(_) => w.worker.Some? && w.worker.value.pc.PublishReady?
    case ExpireUnwritten => w.worker.Some? && (w.worker.value.pc.PublishJournaled? || w.worker.value.pc.PublishReady?)
    case UndoPending(_) => w.worker.Some? && w.worker.value.pc.PublishUnwritten? && CanRestoreJournal(w)
    case PublishDone(_) => w.worker.Some? && w.worker.value.pc.PublishWritten?
  }

  function PublishApply(w: World, s: PublishStep): World
    requires PublishEnabled(w, s)
  {
    match s
    case RefusePublish(r, expired) =>
      Tell(Issue(w, r), r, if expired then TimedOut else Raised, RefusalOutcome(w, expired))
    case EnterPublish(r) => Enter(Issue(w, r), PublishEntered(r))
    case JournalPending(fault) =>
      var r := w.worker.value.pc.request;
      var v := PersistOp(w, WithPending(Op(w), r), fault)
               .(worker := Some(w.worker.value.(pendingStarted := Some(Op(w).started))));
      if fault == Clean then Go(v, PublishJournaled(r)) else Back(Tell(v, r, Raised, NotExecuted), Holding)
    case FindsNoCommand => Go(w, PublishCleared(w.worker.value.pc.request))
    case CallbackFails => Back(Tell(w, w.worker.value.pc.request, Raised, NotExecuted), Holding)
    case ClearResponse => Go(w.(response := None), PublishReady(w.worker.value.pc.request))
    case WriteCommand(fault) =>
      var r := w.worker.value.pc.request;
      if fault == Clean then Go(PlaceCommand(w, r), PublishWritten(r))
      else if fault == AfterReplace then Back(Tell(PlaceCommand(w, r), r, Raised, Unknown), Holding)
      else Back(Tell(w, r, Raised, Unknown), Holding)
    case ExpireUnwritten => Go(w, PublishUnwritten(w.worker.value.pc.request))
    case UndoPending(fault) =>
      var r := w.worker.value.pc.request;
      Back(Tell(RestoreJournal(w, r, fault), r, TimedOut, NotExecuted), Holding)
    case PublishDone(expired) =>
      var r := w.worker.value.pc.request;
      Back(w, if expired then Expired(r) else Polling(r))
  }

  // ----- The polling loop of `send_command`, its completion and its expiry. -----

  datatype PollStep =
    | SeeFence | PollFails | ReadResponse | Expire | Complete(fault: Fault, exit: Exit) | CompleteFails
    | ReturnResponse | Reconcile(fault: Fault) | ReconcileFails | GiveUp

  function CompletedOp(o: Operation): Operation {
    o.(pending := None, uncertain := false)
  }

  predicate PollEnabled(w: World, s: PollStep) {
    match s
    case SeeFence => SeesFence(w) && w.worker.value.pc.Polling?
    case PollFails => w.worker.Some? && w.worker.value.pc.Polling?
    case ReadResponse =>
      && w.worker.Some? && w.worker.value.pc.Polling?
      && w.response.Some? && w.response.value.id == Some(w.worker.value.pc.request)
    case Expire => w.worker.Some? && w.worker.value.pc.Polling?
    case Complete(fault, exit) =>
      && w.worker.Some? && w.worker.value.pc.Responded? && w.guard == Free && Owned(w)
      && Pending(w) == Some(w.worker.value.pc.request)
      && (if fault == Clean then exit in {ReturnedResponse, TimedOut, LateExit} else exit == Raised)
    case CompleteFails => w.worker.Some? && w.worker.value.pc.Responded?
    case ReturnResponse =>
      // the call opened this transaction itself, so it staged nothing and leaves the transaction next
      && w.worker.Some? && w.worker.value.pc.Responded? && w.guard == Free && Owned(w)
      && Pending(w) == Some(w.worker.value.pc.request) && Op(w).artifacts == []
    case Reconcile(_) =>
      && w.worker.Some? && w.worker.value.pc.Expired? && w.guard == Free && Owned(w)
      && Pending(w) == Some(w.worker.value.pc.request)
      && w.response.Some? && w.response.value.id == Some(w.worker.value.pc.request)
    case ReconcileFails =>
      && w.worker.Some? && w.worker.value.pc.Expired?
      && w.response.Some? && w.response.value.id == Some(w.worker.value.pc.request)
    case GiveUp => w.worker.Some? && w.worker.value.pc.Expired?
  }

  function PollApply(w: World, s: PollStep): World
    requires PollEnabled(w, s)
  {
    match s
    case SeeFence => Go(Tell(w, w.worker.value.pc.request, FencedWhilePolling, NotExecuted), Holding)
    case PollFails => Go(Tell(w, w.worker.value.pc.request, Raised, Unknown), Holding)
    case ReadResponse => Go(w, Responded(w.worker.value.pc.request, w.response.value))
    case Expire => Go(w, Expired(w.worker.value.pc.request))
    case Complete(fault, exit) =>
      var pc := w.worker.value.pc;
      Go(Tell(PersistOp(w, CompletedOp(Op(w)), fault), pc.request, exit,
              if exit == LateExit then Completed else HostOutcome(pc.response)), Holding)
    case CompleteFails =>
      var pc := w.worker.value.pc;
      Go(Tell(w, pc.request, Raised, HostOutcome(pc.response)), Holding)
    case ReturnResponse =>
      var pc := w.worker.value.pc;
      Go(PersistOp(w, CompletedOp(Op(w)), Clean), Returning(pc.request, pc.response))
    case Reconcile(fault) =>
      Go(Tell(PersistOp(w, CompletedOp(Op(w)), fault), w.worker.value.pc.request, TimedOut,
              HostOutcome(w.response.value)), Holding)
    case ReconcileFails =>
      Go(Tell(w, w.worker.value.pc.request, TimedOut, HostOutcome(w.response.value)), Holding)
    case GiveUp => Go(Tell(w, w.worker.value.pc.request, TimedOut, Unknown), Holding)
  }

  // ----- `Transaction.withdraw`. -----

  datatype WithdrawStep =
    | OpenCommand | LoseRace | MoveCommand | Verify | Restore | Retain | DropCommand(unlinked: bool)
    | UndoWithdrawn(fault: Fault)

  predicate WithdrawEnabled(w: World, s: WithdrawStep) {
    match s
    case OpenCommand =>
      && w.worker.Some? && w.worker.value.pc.Expired? && w.guard == Free && Owned(w)
      && Pending(w) == Some(w.worker.value.pc.request) && w.heartbeat == RenameV1
      && w.command.Some? && w.command.value.request == Some(w.worker.value.pc.request)
    case LoseRace => w.worker.Some? && w.worker.value.pc.WithdrawOpened?
    case MoveCommand => w.worker.Some? && w.worker.value.pc.WithdrawOpened? && w.command.Some?
    case Verify =>
      && w.worker.Some? && w.worker.value.pc.WithdrawMoved?
      && w.worker.value.pc.moved == Command(w.worker.value.pc.inode, Some(w.worker.value.pc.request))
    case Restore =>
      && w.worker.Some? && w.worker.value.pc.WithdrawMoved? && w.command.None?
      && w.worker.value.pc.moved != Command(w.worker.value.pc.inode, Some(w.worker.value.pc.request))
    case Retain => w.worker.Some? && w.worker.value.pc.WithdrawMoved?
    case DropCommand(_) => w.worker.Some? && w.worker.value.pc.WithdrawVerified?
    case UndoWithdrawn(_) => w.worker.Some? && w.worker.value.pc.WithdrawDropped? && CanRestoreJournal(w)
  }

  function WithdrawApply(w: World, s: WithdrawStep): World
    requires WithdrawEnabled(w, s)
  {
    match s
    case OpenCommand =>
      Enter(w, WithdrawOpened(w.worker.value.pc.request, w.command.value.inode))
    case LoseRace => Back(Tell(w, w.worker.value.pc.request, TimedOut, Unknown), Holding)
    case MoveCommand =>
      var pc := w.worker.value.pc;
      Go(w.(command := None), WithdrawMoved(pc.request, pc.inode, w.command.value))
    case Verify => Go(w, WithdrawVerified(w.worker.value.pc.request, w.worker.value.pc.moved))
    case Restore =>
      var pc := w.worker.value.pc;
      Back(Tell(w.(command := Some(pc.moved)), pc.request, TimedOut, Unknown), Holding)
    case Retain =>
      var pc := w.worker.value.pc;
      Back(Tell(w.(retained := w.retained + {pc.moved}), pc.request, TimedOut, Unknown), Holding)
    case DropCommand(unlinked) =>
      var pc := w.worker.value.pc;
      if unlinked then Go(w, WithdrawDropped(pc.request))
      else Back(Tell(w.(retained := w.retained + {pc.moved}), pc.request, TimedOut, NotExecuted), Holding)
    case UndoWithdrawn(fault) =>
      var r := w.worker.value.pc.request;
      Back(Tell(RestoreJournal(w, r, fault), r, TimedOut, NotExecuted), Holding)
  }

  // ----- Journal marks of a running operation, and the bridge being started. -----

  datatype MarkStep =
    | MarkUncertain(fault: Fault) | Nest(fault: Fault) | GuardStartup(fault: Fault) | Spawn | EndStartup

  predicate MarkEnabled(w: World, s: MarkStep) {
    match s
    case MarkUncertain(_) => AtRest(w, Holding) && Owned(w)
    case Nest(_) => AtRest(w, Holding) && Owned(w)
    case GuardStartup(_) => AtRest(w, Holding) && Owned(w)
    case Spawn => At(w, Starting) && w.worker.value.created && w.bridge.NotStarted?
    case EndStartup => At(w, Starting)
  }

  function MarkApply(w: World, s: MarkStep): World
    requires MarkEnabled(w, s)
  {
    match s
    case MarkUncertain(fault) => PersistOp(w, Op(w).(uncertain := true), fault)
    case Nest(fault) => PersistOp(w, Op(w).(composite := true), fault)
    case GuardStartup(fault) =>
      var v := PersistOp(w, Op(w).(started := true), fault);
      if fault == Clean then Enter(v, Starting) else v
    case Spawn => w.(bridge := Idle)
    case EndStartup => Back(w, Holding)
  }

  // ----- Retiring an operation, or rolling its new directory back. -----

  datatype FinishStep =
    | EnterFinish(failed: bool) | FinishKeep(fault: Fault) | FinishRetire(fault: Fault, exit: Exit)
    | FinishRestore(fault: Fault) | FinishFenced | FinishFails | Rollback | RollbackFails(gone: Gone, fault: Fault)

  /** What a removal of the directory had unlinked when it failed; the journal goes last. */
  datatype Gone = Gone(command: bool, response: bool, journal: bool)

  predicate FinishEnabled(w: World, s: FinishStep) {
    match s
    case EnterFinish(failed) =>
      || (AtRest(w, Holding) && Owned(w))
      || (w.worker.Some? && w.worker.value.pc.Returning? && w.guard == Free && Owned(w) && !failed)
    case FinishKeep(_) =>
      At(w, Finishing(true, None)) && HasOperation(w) && Resolved(Op(w)) && Op(w).composite && Op(w).started
    case FinishRetire(_, exit) =>
      && w.worker.Some? && w.worker.value.pc.Finishing? && HasOperation(w) && Resolved(Op(w))
      && !(w.worker.value.pc.failed && Op(w).composite && Op(w).started)
      && exit in {ReturnedResponse, TimedOut, LateExit}
    case FinishRestore(_) => w.worker.Some? && w.worker.value.pc.FinishUndo? && w.journal.Some?
    case FinishFenced =>
      // `_require_ready` raises at stage `admission`, outside the handlers of `send_command`
      SeesFence(w) && w.worker.value.pc.Returning?
    case FinishFails => w.worker.Some? && (w.worker.value.pc.Returning? || Answering(w).Some?)
    case Rollback =>
      && AtRest(w, Holding) && w.worker.value.created && Owned(w) && Resolved(Op(w))
      && w.recovery.None? && w.bridge.NotStarted?
    case RollbackFails(gone, _) =>
      && (gone.journal ==> gone.command && gone.response)
      && AtRest(w, Holding) && w.worker.value.created && Owned(w) && Resolved(Op(w))
      && w.recovery.None? && w.bridge.NotStarted?
  }

  function FinishApply(w: World, s: FinishStep): World
    requires FinishEnabled(w, s)
  {
    match s
    case EnterFinish(failed) =>
      var pc := w.worker.value.pc;
      Enter(w, Finishing(failed, if pc.Returning? then Some(Answer(pc.request, pc.response)) else None))
    case FinishKeep(fault) =>
      Leave(if Op(w).artifacts == [] then w else PersistOp(w, Op(w).(artifacts := []), fault))
    case FinishRetire(fault, exit) =>
      var answer := w.worker.value.pc.answer;
      var v := Persist(w, w.journal.value.(operation := None), fault);
      if fault == Clean then Leave(TellAnswer(v, answer, exit))
      else Go(v, FinishUndo(Op(w).(artifacts := []), answer))
    case FinishRestore(fault) =>
      var pc := w.worker.value.pc;
      Leave(TellAnswer(PersistOp(w, pc.operation.(uncertain := true), fault), pc.answer, Raised))
    case FinishFenced => Leave(Tell(w, w.worker.value.pc.request, FencedWhileFinishing, NotExecuted))
    case FinishFails =>
      var pc := w.worker.value.pc;
      Leave(Tell(w, if pc.Returning? then pc.request else pc.answer.value.request, Raised, Unknown))
    case Rollback =>
      Leave(w).(removed := true, journal := None, command := None, response := None)
    case RollbackFails(gone, fault) =>
      var left := w.(command := if gone.command then None else w.command,
                     response := if gone.response then None else w.response,
                     journal := if gone.journal then None else w.journal);
      Persist(left, w.journal.value.(operation := Some(Op(w).(uncertain := true))), fault)
  }

  // ----- `recovery` and `Recovery.finish`. -----

  datatype RecoveryStep =
    | RecoverBegin(fault: Fault) | Terminated | RecoverEnter | RecoverSweepFailed(kept: seq<Artifact>, fault: Fault)
    | RecoverFinish(fault: Fault) | RecoveryGone

  predicate RecoveryEnabled(w: World, s: RecoveryStep) {
    match s
    case RecoverBegin(_) => w.recovery.None? && w.guard == Free && !w.removed
    case Terminated => w.recovery.Some? && w.recovery.value.Fencing?
    case RecoverEnter =>
      && w.recovery.Some? && w.recovery.value.Confirmed? && w.guard == Free && w.journal.Some?
      && w.journal.value.generation == w.recovery.value.generation && w.journal.value.state != Ready
    case RecoverSweepFailed(kept, _) =>
      && w.recovery.Some? && w.recovery.value.Cleaning? && HasOperation(w)
      && KeptFrom(kept, Op(w).artifacts)
    case RecoverFinish(_) => w.recovery.Some? && w.recovery.value.Cleaning? && w.journal.Some?
    case RecoveryGone => w.recovery.Some?
  }

  function RecoveryApply(w: World, s: RecoveryStep): World
    requires RecoveryEnabled(w, s)
  {
    match s
    case RecoverBegin(fault) =>
      var j := if w.journal.Some? then w.journal.value.(state := Stopping)
               else Journal(w.next.generation, Stopping, None);
      var v := FreshGeneration(Persist(w, j, fault));
      if fault == Clean then v.(recovery := Some(Fencing(j.generation))) else v
    case Terminated =>
      w.(bridge := Dead, recovery := Some(Confirmed(w.recovery.value.generation)))
    case RecoverEnter =>
      w.(guard := ByRecovery, recovery := Some(Cleaning(w.recovery.value.generation)))
    case RecoverSweepFailed(kept, fault) =>
      PersistOp(w, Op(w).(artifacts := kept), fault).(recovery := None, guard := Free)
    case RecoverFinish(fault) =>
      Persist(w, w.journal.value.(state := Stopped, operation := None), fault).(recovery := None, guard := Free)
    case RecoveryGone =>
      w.(recovery := None, guard := if w.guard == ByRecovery then Free else w.guard)
  }

  // ----- The machine -----

  datatype Step =
    | OfBridge(bridge: BridgeStep)
    | OfEntry(entry: EntryStep)
    | OfStaging(staging: StagingStep)
    | OfPublish(publish: PublishStep)
    | OfPoll(poll: PollStep)
    | OfWithdraw(withdraw: WithdrawStep)
    | OfMark(mark: MarkStep)
    | OfFinish(finish: FinishStep)
    | OfRecovery(recovery: RecoveryStep)

  predicate Enabled(w: World, s: Step) {
    match s
    case OfBridge(t) => BridgeEnabled(w, t)
    case OfEntry(t) => EntryEnabled(w, t)
    case OfStaging(t) => StagingEnabled(w, t)
    case OfPublish(t) => PublishEnabled(w, t)
    case OfPoll(t) => PollEnabled(w, t)
    case OfWithdraw(t) => WithdrawEnabled(w, t)
    case OfMark(t) => MarkEnabled(w, t)
    case OfFinish(t) => FinishEnabled(w, t)
    case OfRecovery(t) => RecoveryEnabled(w, t)
  }

  function Apply(w: World, s: Step): World
    requires Enabled(w, s)
  {
    match s
    case OfBridge(t) => BridgeApply(w, t)
    case OfEntry(t) => EntryApply(w, t)
    case OfStaging(t) => StagingApply(w, t)
    case OfPublish(t) => PublishApply(w, t)
    case OfPoll(t) => PollApply(w, t)
    case OfWithdraw(t) => WithdrawApply(w, t)
    case OfMark(t) => MarkApply(w, t)
    case OfFinish(t) => FinishApply(w, t)
    case OfRecovery(t) => RecoveryApply(w, t)
  }

  /** `v` is reached from `w` by exactly these steps. */
  ghost predicate Reaches(w: World, steps: seq<Step>, v: World)
    decreases |steps|
  {
    if steps == [] then w == v
    else Enabled(w, steps[0]) && Reaches(Apply(w, steps[0]), steps[1..], v)
  }

  /** A directory before this protocol touched it: no worker, nothing published, any staging files. */
  ghost predicate Init(w: World) {
    && w.journal.None? && !w.removed && w.worker.None? && w.recovery.None? && w.guard == Free
    && w.command.None? && w.response.None? && w.heartbeat == Unreadable
    && (w.bridge.NotStarted? || w.bridge.Idle?)
    && (forall p :: p in w.staging ==> w.staging[p] < w.next.inode)
    && w.retained == {} && w.log == History({}, map[], {}, multiset{}, {}, {}, {})
  }

  /** Runs compose. */
  lemma {:induction false} ReachesConcat(u: World, first: seq<Step>, v: World, second: seq<Step>, w: World)
    requires Reaches(u, first, v) && Reaches(v, second, w)
    ensures Reaches(u, first + second, w)
    decreases |first|
  {
    if first == [] {
      assert first + second == second;
    } else {
      ReachesConcat(Apply(u, first[0]), first[1..], v, second, w);
      assert (first + second)[1..] == first[1..] + second;
    }
  }
}
