/**
  The shared state of one session directory: the journal, the three locks, the command and response
  files, the worker under the operation lock, the recovery under the stop lock and the bridge, with a
  history of what was published, executed and reported.
 */
module TransactionWorld {
  import opened Basics
  import opened BridgeReply

  // ----- Data -----

  /** Where an atomic write stopped: `os.replace` is the point at which the new text becomes visible. */
  datatype Fault = Clean | BeforeReplace | AfterReplace

  datatype Phase = Ready | Stopping | Stopped

  /** A journaled screenshot staging file and the request it was given to. */
  datatype Artifact = Artifact(path: nat, inode: nat, request: Option<Request>)

  datatype Operation = Operation(
    id: nat,
    composite: bool,
    started: bool,
    pending: Option<Request>,
    uncertain: bool,
    artifacts: seq<Artifact>)

  datatype Journal = Journal(generation: nat, state: Phase, operation: Option<Operation>)

  /** A file at `command.lua`; `request` is `None` when no host worker wrote it. */
  datatype Command = Command(inode: nat, request: Option<Request>)

  datatype Bridge =
    | NotStarted
    | Idle
    | Claimed(command: Command)
    | Executing(command: Command)
    | Replying(reply: Response)
    | Dead

  /** What `heartbeat.json` says about the claim handshake, as far as the host can read it. */
  datatype Heartbeat = Unreadable | Legacy | RenameV1

  /** The response a `send_command` that opened its own transaction is about to return. */
  datatype Answer = Answer(request: Request, response: Response)

  /** Where the worker stands; the states marked (*) hold the state lock. */
  datatype Pc =
    | Entering                                             // (*) owns the operation lock, reads the journal
    | Reclaiming                                           // (*) the abandoned operation is resolved
    | Holding                                              // inside the transaction body
    | Staging(artifact: Artifact)                          // (*) staging file created, not yet journaled
    | Unstaging(artifact: Artifact)                        // (*) it was not journaled in time: take it back
    | PublishEntered(request: Request)                     // (*) publication admitted
    | PublishJournaled(request: Request)                   // (*) pending request is in the journal
    | PublishCleared(request: Request)                     // (*) no command file was found
    | PublishReady(request: Request)                       // (*) old response removed
    | PublishUnwritten(request: Request)                   // (*) deadline expired before the command was visible
    | PublishWritten(request: Request)                     // (*) the command is visible
    | Polling(request: Request)
    | Responded(request: Request, response: Response)
    | Expired(request: Request)                            // deadline expired after publication
    | WithdrawOpened(request: Request, inode: nat)         // (*) command file opened and its header checked
    | WithdrawMoved(request: Request, inode: nat, moved: Command) // (*) renamed to the private name
    | WithdrawVerified(request: Request, moved: Command)   // (*) the moved file is the opened one
    | WithdrawDropped(request: Request)                    // (*) private file unlinked
    | Starting                                             // (*) startup guard
    | Returning(request: Request, response: Response)      // completion recorded, `return response` under way
    | Finishing(failed: bool, answer: Option<Answer>)      // (*)
    | FinishUndo(operation: Operation, answer: Option<Answer>) // (*) retirement was not confirmed durable

  datatype Worker = Worker(id: nat, generation: nat, created: bool, pendingStarted: Option<bool>, pc: Pc)

  datatype Recovery = Fencing(generation: nat) | Confirmed(generation: nat) | Cleaning(generation: nat)

  /** The holder of the state lock. */
  datatype Guard = Free | ByWorker | ByRecovery

  /**
    How `send_command` ended. `LateExit` is a deadline that expires while its own outermost scope closes;
    `FencedWhileFinishing` is a fence met by the exit of its own transaction, after the response was in.
   */
  datatype Exit = ReturnedResponse | TimedOut | LateExit | FencedWhilePolling | FencedWhileFinishing | Raised

  datatype Report = Report(request: Request, exit: Exit, outcome: Outcome)

  /** Sources of fresh inodes, operation ids and generations. */
  datatype Counters = Counters(inode: nat, operation: nat, generation: nat)

  /** What happened in the whole run so far. */
  datatype History = History(
    issued: set<Request>,
    published: map<Request, nat>,    // request -> inode of its command file
    taken: set<nat>,                 // inodes of command files claimed by the bridge
    executed: multiset<Request>,
    returned: set<Request>,          // requests whose handler returned normally
    replied: set<Request>,           // requests whose reply phase is over
    reports: set<Report>)

  datatype World = World(
    journal: Option<Journal>,
    removed: bool,
    worker: Option<Worker>,          // holder of the operation lock
    recovery: Option<Recovery>,      // holder of the stop lock
    guard: Guard,
    command: Option<Command>,
    response: Option<Response>,
    heartbeat: Heartbeat,
    renames: bool,                   // does this bridge claim by rename?
    bridge: Bridge,
    staging: map<nat, nat>,          // staging path -> inode now at that path
    retained: set<Command>,          // files left at private withdrawal names
    next: Counters,
    log: History)

  // ----- Reading a state -----

  function Waiting(w: World): Option<Request> {
    if w.command.Some? then w.command.value.request else None
  }

  function Inside(w: World): Option<Request> {
    match w.bridge
    case Claimed(c) => c.request
    case Executing(c) => c.request
    case Replying(reply) => reply.id
    case _ => None
  }

  /** The request sits in `command.lua`, is claimed, or runs without its response being out. */
  predicate InFlight(w: World, r: Request) {
    !w.bridge.Dead? && (Waiting(w) == Some(r) || Inside(w) == Some(r))
  }

  predicate HasOperation(w: World) {
    w.journal.Some? && w.journal.value.operation.Some?
  }

  function Op(w: World): Operation
    requires HasOperation(w)
  {
    w.journal.value.operation.value
  }

  function Pending(w: World): Option<Request> {
    if HasOperation(w) then Op(w).pending else None
  }

  predicate IsReady(w: World) {
    w.journal.Some? && w.journal.value.state == Ready
  }

  /** `_owned_operation` succeeds: right generation, state ready, operation still ours. */
  predicate Owned(w: World) {
    && w.worker.Some?
    && IsReady(w)
    && w.journal.value.generation == w.worker.value.generation
    && HasOperation(w)
    && Op(w).id == w.worker.value.id
  }

  /** The ownership check of this worker raises at the fence, which the label `not_executed` goes with. */
  predicate SeesFence(w: World) {
    && w.worker.Some? && w.guard == Free && w.journal.Some?
    && w.journal.value.generation == w.worker.value.generation && w.journal.value.state != Ready
  }

  predicate Resolved(o: Operation) {
    o.pending.None? && !o.uncertain
  }

  /** `_reclaimable`: a started composite never is; a pending request needs its own response. */
  predicate Reclaimable(o: Operation, response: Option<Response>) {
    && !(o.composite && o.started)
    && (if o.pending.None? then !o.uncertain else response.Some? && response.value.id == o.pending)
  }

  predicate At(w: World, pc: Pc) {
    w.worker.Some? && w.worker.value.pc == pc
  }

  predicate AtRest(w: World, pc: Pc) {
    At(w, pc) && w.guard == Free
  }

  /** The artifacts a cleanup could not remove; it keeps them in the journal. */
  predicate KeptFrom(kept: seq<Artifact>, artifacts: seq<Artifact>) {
    kept != [] && forall a :: a in kept ==> a in artifacts
  }

  /** Who is inside `_cleanup_screenshots` right now. */
  predicate MaySweep(w: World) {
    && HasOperation(w)
    && (|| At(w, Reclaiming)
        || (w.worker.Some? && w.worker.value.pc.Finishing? && Resolved(Op(w)))
        || (w.recovery.Some? && w.recovery.value.Cleaning?))
  }

  // ----- Writing a state -----

  function Persist(w: World, journal: Journal, fault: Fault): World {
    if fault == BeforeReplace then w else w.(journal := Some(journal))
  }

  function PersistOp(w: World, o: Operation, fault: Fault): World
    requires w.journal.Some?
  {
    Persist(w, w.journal.value.(operation := Some(o)), fault)
  }

  function Go(w: World, pc: Pc): World
    requires w.worker.Some?
  {
    w.(worker := Some(w.worker.value.(pc := pc)))
  }

  function Enter(w: World, pc: Pc): World
    requires w.worker.Some?
  {
    Go(w, pc).(guard := ByWorker)
  }

  function Back(w: World, pc: Pc): World
    requires w.worker.Some?
  {
    Go(w, pc).(guard := Free)
  }

  function Leave(w: World): World {
    w.(worker := None, guard := if w.guard == ByWorker then Free else w.guard)
  }

  function FreshInode(w: World): World {
    w.(next := w.next.(inode := w.next.inode + 1))
  }

  function FreshGeneration(w: World): World {
    w.(next := w.next.(generation := w.next.generation + 1))
  }

  function Tell(w: World, r: Request, exit: Exit, outcome: Outcome): World {
    w.(log := w.log.(reports := w.log.reports + {Report(r, exit, outcome)}))
  }

  /** What a call with an answer reports when its transaction is over. */
  function AnswerReport(answer: Answer, exit: Exit): Report {
    Report(answer.request, exit,
           if exit == Raised then Unknown else if exit == LateExit then Completed else HostOutcome(answer.response))
  }

  function TellAnswer(w: World, answer: Option<Answer>, exit: Exit): World {
    w.(log := w.log.(reports := w.log.reports + if answer.None? then {} else {AnswerReport(answer.value, exit)}))
  }

  function Tag(artifacts: seq<Artifact>, r: Request): seq<Artifact> {
    if artifacts == [] then []
    else
      var a := artifacts[0];
      [if a.request.None? then a.(request := Some(r)) else a] + Tag(artifacts[1..], r)
  }

  function Untag(artifacts: seq<Artifact>, r: Request): seq<Artifact> {
    if artifacts == [] then []
    else
      var a := artifacts[0];
      [if a.request == Some(r) then a.(request := None) else a] + Untag(artifacts[1..], r)
  }

  /** The journal entry `publish` writes before its side effect. */
  function WithPending(o: Operation, r: Request): Operation {
    o.(started := true, pending := Some(r), artifacts := Tag(o.artifacts, r))
  }

  /** The journal entry `withdraw` and the unpublished branch of `publish` restore. */
  function WithoutPending(o: Operation, r: Request, started: bool): Operation {
    o.(started := started, pending := None, artifacts := Untag(o.artifacts, r))
  }

  function NewOperation(id: nat, composite: bool): Operation {
    Operation(id, composite, false, None, false, [])
  }
}
