/** `Transaction.publish`, `Transaction.complete` and `Transaction.withdraw` for one request. */
module RequestTransactions {
  import opened Basics
  import opened BridgeReply
  import opened TransactionWorld
  import opened TransactionProtocol
  import opened TransactionInvariant
  import opened TransactionArtifacts
  import opened TransactionSafety
  import opened SessionTransactions
  import opened StagingTransactions

  /** Artifacts that belong to no request are given to this one; nothing else about them changes. */
  ghost predicate GivenTo(after: seq<Artifact>, before: seq<Artifact>, r: Request) {
    && |after| == |before|
    && forall i :: 0 <= i < |before| ==>
         && after[i].path == before[i].path && after[i].inode == before[i].inode
         && after[i].request == if before[i].request.None? then Some(r) else before[i].request
  }

  lemma {:induction false} TagGives(artifacts: seq<Artifact>, r: Request)
    ensures GivenTo(Tag(artifacts, r), artifacts, r)
  {
    if artifacts == [] {
    } else {
      TagGives(artifacts[1..], r);
    }
  }

  /**
    The journal entry a request leaves behind, as long as recovery has not fenced the session: the operation
    is started, waits for this request and its new artifacts belong to it.
   */
  ghost predicate Journaled(w: World, before: World, r: Request) {
    IsReady(w) ==>
      && IsReady(before) && HasOperation(before) && Op(before).pending.None? && HasOperation(w)
      && w.journal.value.generation == before.journal.value.generation
      && Op(w).started && Op(w).pending == Some(r)
      && Op(w).id == Op(before).id && Op(w).composite == Op(before).composite
      && Op(w).uncertain == Op(before).uncertain
      && GivenTo(Op(w).artifacts, Op(before).artifacts, r)
      && w.worker.Some? && w.worker.value.pendingStarted == Some(Op(before).started)
  }

  /** The journal is what it was before the request was published. */
  ghost predicate Unpublished(w: World, before: World, r: Request) {
    && IsReady(before) && HasOperation(before)
    && before.worker.Some? && before.worker.value.pendingStarted.Some?
    && w.journal == Some(before.journal.value.(operation :=
                           Some(WithoutPending(Op(before), r, before.worker.value.pendingStarted.value))))
  }

  lemma {:induction false} TakingUndoesGiving(after: seq<Artifact>, before: seq<Artifact>, r: Request)
    requires GivenTo(after, before, r) && forall a :: a in before ==> a.request != Some(r)
    ensures Untag(after, r) == before
  {
    if before == [] {
    } else {
      assert before[0] in before;
      TakingUndoesGiving(after[1..], before[1..], r);
    }
  }

  /** Taking a journaled request back restores the journal of the moment before it was published. */
  lemma TakenBackIsIdentity(w: World, journaled: World, before: World, r: Request)
    requires Artifacts(before) && r !in before.log.issued
    requires IsReady(journaled) && Journaled(journaled, before, r) && Unpublished(w, journaled, r)
    ensures w.journal == before.journal
  {
    forall a | a in Op(before).artifacts
      ensures a.request != Some(r)
    {
      assert Known(a, before.next.inode, before.log.issued);
    }
    TakingUndoesGiving(Op(journaled).artifacts, Op(before).artifacts, r);
  }

  // ----- `publish` -----

  datatype Publication = Visible | VisibleLate | NotSent(report: Report)

  /**
    What the system answers while a request is published: the deadline checks before the journal write, before
    the callback, inside `write_command` and behind it, the three writes, and a failing removal of the response.
   */
  datatype PublishAnswers = PublishAnswers(
    expired: bool, journal: Fault, expiredEarly: bool, failed: bool, expiredLate: bool, write: Fault, undo: Fault,
    late: bool)

  /** The states in which ownership is checked and an old command is looked for, and one without any response. */
  datatype PublishSight = PublishSight(entered: nat, looked: nat, cleared: nat)

  /** How the replacement of the command file ends. */
  function WriteEnd(r: Request, answers: PublishAnswers): Publication {
    if answers.expiredLate then NotSent(Report(r, TimedOut, NotExecuted))
    else if answers.write != Clean then NotSent(Report(r, Raised, Unknown))
    else if answers.late then VisibleLate
    else Visible
  }

  /** How the callback ends that looks for an old command in the state `looked`. */
  function CallbackEnd(r: Request, looked: World, answers: PublishAnswers): Publication {
    if answers.expiredEarly then NotSent(Report(r, TimedOut, NotExecuted))
    else if looked.command.Some? || answers.failed then NotSent(Report(r, Raised, NotExecuted))
    else WriteEnd(r, answers)
  }

  /** How a publication ends that checks ownership in the state `entered`. */
  function PublishEnd(r: Request, entered: World, looked: World, answers: PublishAnswers): Publication {
    if answers.expired then NotSent(Report(r, TimedOut, NotExecuted))
    else if !FreeToAct(entered) then
      NotSent(Report(r, Raised, if SeesFence(entered) || (entered.guard == Free && Owned(entered)) then NotExecuted
                                else Unknown))
    else if answers.journal != Clean then NotSent(Report(r, Raised, NotExecuted))
    else CallbackEnd(r, looked, answers)
  }

  /** Where the worker stands for each result, and what each result says about the command file. */
  ghost predicate Settled(w: World, r: Request, result: Publication, write: Fault) {
    match result
    case Visible => AtRest(w, Polling(r)) && r in w.log.published
    case VisibleLate => AtRest(w, Expired(r)) && r in w.log.published
    case NotSent(report) =>
      && At(w, Holding) && report in w.log.reports && report.request == r
      && (r in w.log.published ==> report == Report(r, Raised, Unknown) && write == AfterReplace)
  }

  /**
    The journal entry once publication is over: a request whose deadline expired before it was visible is taken
    back, and any other one stays in the entry, whatever became of its command file.
   */
  ghost predicate EntryKept(w: World, before: World, r: Request, result: Publication, undo: Fault) {
    && before.worker.Some? && w.worker.Some?
    && (if result == NotSent(Report(r, TimedOut, NotExecuted))
           && undo != BeforeReplace
        then Unpublished(w, before, r)
        else w.journal == before.journal && w.worker.value.pendingStarted == before.worker.value.pendingStarted)
  }

  /** The journal once publication is over, in terms of the state in which it was admitted. */
  ghost predicate EntryAfter(w: World, entered: World, r: Request, result: Publication, answers: PublishAnswers) {
    if answers.expired || !FreeToAct(entered) || answers.journal == BeforeReplace then w.journal == entered.journal
    else if result == NotSent(Report(r, TimedOut, NotExecuted)) && answers.undo != BeforeReplace then
      w.journal == entered.journal
    else IsReady(w) && Journaled(w, entered, r)
  }

  /**
    `publish` with the callback `send_command` gives it. The pending request is journaled before the
    command file becomes visible; a deadline that expires before that undoes the entry. Every check and every
    answer decides the result in the order of the code. `NotSent` carries the report of a request whose
    publication is over, without saying that its file is absent.
   */
  method Publish(directory: SessionDirectory, r: Request, answers: PublishAnswers)
    returns (result: Publication, ghost sight: PublishSight)
    requires directory.Valid() && At(directory.world, Holding) && r !in directory.world.log.issued
    modifies directory
    ensures directory.Valid() && directory.Continues()
    ensures directory.Since(sight.entered) && directory.Since(sight.looked) && directory.Since(sight.cleared)
    ensures result == PublishEnd(r, directory.past[sight.entered], directory.past[sight.looked], answers)
    ensures Settled(directory.world, r, result, answers.write)
    ensures EntryAfter(directory.world, directory.past[sight.entered], r, result, answers)
    ensures !result.NotSent? ==>
              && Journaled(directory.world, old(directory.world), r)
              && directory.past[sight.cleared].response.None?
              && r !in directory.past[sight.cleared].log.published
  {
    directory.Facts();
    directory.Interfere();
    sight := PublishSight(|directory.past| - 1, |directory.past| - 1, |directory.past| - 1);
    if answers.expired || directory.world.guard != Free || !Owned(directory.world) || !Resolved(Op(directory.world)) {
      result := RefuseToPublish(directory, r, answers.expired);
      return;
    }
    ghost var looked, cleared;
    result, looked, cleared := EnterPublication(directory, r, answers);
    sight := sight.(looked := looked, cleared := cleared);
  }

  /** Nothing is written; the label says `not_executed` only where the code knows that. */
  method RefuseToPublish(directory: SessionDirectory, r: Request, expired: bool) returns (result: Publication)
    requires directory.Valid() && At(directory.world, Holding) && r !in directory.world.log.issued
    modifies directory
    ensures directory.Valid() && directory.Continues()
    ensures At(directory.world, Holding) && directory.world.journal == old(directory.world).journal
    ensures r !in directory.world.log.published
    ensures result.NotSent? && result.report in directory.world.log.reports
    ensures result.report == (if expired then Report(r, TimedOut, NotExecuted)
                              else Report(r, Raised, RefusalOutcome(old(directory.world), false)))
  {
    directory.Facts();
    var outcome := RefusalOutcome(directory.world, expired);
    directory.TakePublish(RefusePublish(r, expired));
    result := NotSent(Report(r, if expired then TimedOut else Raised, outcome));
  }

  /** The admitted publication. */
  method EnterPublication(directory: SessionDirectory, r: Request, answers: PublishAnswers)
    returns (result: Publication, ghost looked: nat, ghost cleared: nat)
    requires directory.Valid() && PublishEnabled(directory.world, EnterPublish(r)) && !answers.expired
    modifies directory
    ensures directory.Valid() && directory.Continues() && directory.Since(looked) && directory.Since(cleared)
    ensures result == (if answers.journal != Clean then NotSent(Report(r, Raised, NotExecuted))
                       else CallbackEnd(r, directory.past[looked], answers))
    ensures Settled(directory.world, r, result, answers.write)
    ensures EntryAfter(directory.world, old(directory.world), r, result, answers)
    ensures !result.NotSent? ==>
              directory.past[cleared].response.None? && r !in directory.past[cleared].log.published
  {
    directory.Facts();
    ghost var before := directory.world;
    directory.TakePublish(EnterPublish(r));
    ghost var journaled;
    journaled, result, looked, cleared := NamePending(directory, answers);
    if answers.journal == Clean && result == NotSent(Report(r, TimedOut, NotExecuted))
       && answers.undo != BeforeReplace {
      TakenBackIsIdentity(directory.world, journaled, before, r);
    }
  }

  /** The journal write of `publish`: a write that cannot be confirmed ends the request unsent. */
  method NamePending(directory: SessionDirectory, answers: PublishAnswers)
    returns (ghost journaled: World, result: Publication, ghost looked: nat, ghost cleared: nat)
    requires directory.Valid() && directory.world.worker.Some? && directory.world.worker.value.pc.PublishEntered?
    requires IsReady(directory.world) && HasOperation(directory.world) && Op(directory.world).pending.None?
    modifies directory
    ensures directory.Valid() && directory.Continues() && directory.Since(looked) && directory.Since(cleared)
    ensures var r := old(directory.world).worker.value.pc.request;
            && result == (if answers.journal != Clean then NotSent(Report(r, Raised, NotExecuted))
                          else CallbackEnd(r, directory.past[looked], answers))
            && Settled(directory.world, r, result, answers.write)
            && (if answers.journal == Clean
                then
                  && IsReady(journaled) && Journaled(journaled, old(directory.world), r)
                  && EntryKept(directory.world, journaled, r, result, answers.undo)
                else if answers.journal == BeforeReplace
                then directory.world.journal == old(directory.world).journal
                else IsReady(directory.world) && Journaled(directory.world, old(directory.world), r))
            && (!result.NotSent? ==>
                  directory.past[cleared].response.None? && r !in directory.past[cleared].log.published)
  {
    directory.Facts();
    var r := directory.world.worker.value.pc.request;
    TagGives(Op(directory.world).artifacts, r);
    directory.TakePublish(JournalPending(answers.journal));
    journaled := directory.world;
    looked, cleared := |directory.past| - 1, |directory.past| - 1;
    if answers.journal != Clean {
      return journaled, NotSent(Report(r, Raised, NotExecuted)), looked, cleared;
    }
    result, looked, cleared := RunCallback(directory, answers);
  }

  /** The guarded side effect of `publish`, from the journaled entry to the visible command file. */
  method RunCallback(directory: SessionDirectory, answers: PublishAnswers)
    returns (result: Publication, ghost looked: nat, ghost cleared: nat)
    requires directory.Valid() && directory.world.worker.Some? && directory.world.worker.value.pc.PublishJournaled?
    requires IsReady(directory.world)
    modifies directory
    ensures directory.Valid() && directory.Continues() && directory.Since(looked) && directory.Since(cleared)
    ensures var r := old(directory.world).worker.value.pc.request;
            && result == CallbackEnd(r, directory.past[looked], answers)
            && Settled(directory.world, r, result, answers.write)
            && EntryKept(directory.world, old(directory.world), r, result, answers.undo)
            && (!result.NotSent? ==>
                  directory.past[cleared].response.None? && r !in directory.past[cleared].log.published)
  {
    directory.Facts();
    directory.Interfere();
    looked, cleared := |directory.past| - 1, |directory.past| - 1;
    if answers.expiredEarly {
      result := UndoUnwritten(directory, answers.undo);
      return;
    }
    if directory.world.command.Some? {
      result := FailCallback(directory);
      return;
    }
    directory.TakePublish(FindsNoCommand);
    result, cleared := RemoveResponse(directory, answers);
  }

  /** The callback raises: the request stays in the journal, and its command was not written. */
  method FailCallback(directory: SessionDirectory) returns (result: Publication)
    requires directory.Valid() && PublishEnabled(directory.world, CallbackFails)
    modifies directory
    ensures directory.Valid() && directory.Continues()
    ensures var r := old(directory.world).worker.value.pc.request;
            && result == NotSent(Report(r, Raised, NotExecuted))
            && At(directory.world, Holding) && result.report in directory.world.log.reports
            && r !in directory.world.log.published
            && directory.world.journal == old(directory.world).journal
            && directory.world.worker.value.pendingStarted == old(directory.world).worker.value.pendingStarted
  {
    directory.Facts();
    var r := directory.world.worker.value.pc.request;
    directory.TakePublish(CallbackFails);
    result := NotSent(Report(r, Raised, NotExecuted));
  }

  /** The rest of the callback once no command file was found: remove the old response, write the command. */
  method RemoveResponse(directory: SessionDirectory, answers: PublishAnswers)
    returns (result: Publication, ghost cleared: nat)
    requires directory.Valid() && directory.world.worker.Some? && directory.world.worker.value.pc.PublishCleared?
    requires IsReady(directory.world)
    modifies directory
    ensures directory.Valid() && directory.Continues() && directory.Since(cleared)
    ensures var r := old(directory.world).worker.value.pc.request;
            && result == (if answers.failed then NotSent(Report(r, Raised, NotExecuted)) else WriteEnd(r, answers))
            && Settled(directory.world, r, result, answers.write)
            && EntryKept(directory.world, old(directory.world), r, result, answers.undo)
            && (!result.NotSent? ==>
                  directory.past[cleared].response.None? && r !in directory.past[cleared].log.published)
  {
    directory.Facts();
    directory.Interfere();
    cleared := |directory.past| - 1;
    if answers.failed {
      result := FailCallback(directory);
      return;
    }
    directory.TakePublish(ClearResponse);
    directory.Facts();
    cleared := |directory.past| - 1;
    result := WriteCommandFile(directory, answers);
  }

  /** `write_command`: an expiry is reported as unpublished only if it came before the replacement. */
  method WriteCommandFile(directory: SessionDirectory, answers: PublishAnswers) returns (result: Publication)
    requires directory.Valid() && directory.world.worker.Some? && directory.world.worker.value.pc.PublishReady?
    requires IsReady(directory.world)
    modifies directory
    ensures directory.Valid() && directory.Continues()
    ensures var r := old(directory.world).worker.value.pc.request;
            && result == WriteEnd(r, answers)
            && Settled(directory.world, r, result, answers.write)
            && EntryKept(directory.world, old(directory.world), r, result, answers.undo)
  {
    directory.Facts();
    var r := directory.world.worker.value.pc.request;
    directory.Interfere();
    if answers.expiredLate {
      result := UndoUnwritten(directory, answers.undo);
      return;
    }
    result := ReplaceCommand(directory, answers.write, answers.late);
  }

  /** The replacement itself: a write that cannot be confirmed may have made the command visible. */
  method ReplaceCommand(directory: SessionDirectory, write: Fault, late: bool) returns (result: Publication)
    requires directory.Valid() && directory.world.worker.Some? && directory.world.worker.value.pc.PublishReady?
    modifies directory
    ensures directory.Valid() && directory.Continues()
    ensures var r := old(directory.world).worker.value.pc.request;
            && result == (if write != Clean then NotSent(Report(r, Raised, Unknown))
                          else if late then VisibleLate else Visible)
            && Settled(directory.world, r, result, write)
            && directory.world.journal == old(directory.world).journal
            && directory.world.worker.Some?
            && directory.world.worker.value.pendingStarted == old(directory.world).worker.value.pendingStarted
  {
    directory.Facts();
    var r := directory.world.worker.value.pc.request;
    directory.TakePublish(WriteCommand(write));
    if write != Clean {
      return NotSent(Report(r, Raised, Unknown));
    }
    result := EndPublication(directory, late);
  }

  /** The command is visible; the guard ends with one more look at the deadline. */
  method EndPublication(directory: SessionDirectory, late: bool) returns (result: Publication)
    requires directory.Valid() && directory.world.worker.Some? && directory.world.worker.value.pc.PublishWritten?
    modifies directory
    ensures directory.Valid() && directory.Continues()
    ensures var r := old(directory.world).worker.value.pc.request;
            && result == (if late then VisibleLate else Visible)
            && AtRest(directory.world, if late then Expired(r) else Polling(r)) && r in directory.world.log.published
            && directory.world.journal == old(directory.world).journal
            && directory.world.worker.value.pendingStarted == old(directory.world).worker.value.pendingStarted
  {
    directory.Facts();
    directory.Interfere();
    directory.TakePublish(PublishDone(late));
    result := if late then VisibleLate else Visible;
  }

  /** The deadline expired before the command was visible: restore the journal entry. */
  method UndoUnwritten(directory: SessionDirectory, undo: Fault) returns (result: Publication)
    requires directory.Valid() && directory.world.worker.Some? && IsReady(directory.world)
    requires directory.world.worker.value.pc.PublishJournaled? || directory.world.worker.value.pc.PublishReady?
    modifies directory
    ensures directory.Valid() && directory.Continues()
    ensures var r := old(directory.world).worker.value.pc.request;
            && result == NotSent(Report(r, TimedOut, NotExecuted))
            && At(directory.world, Holding) && result.report in directory.world.log.reports
            && r !in directory.world.log.published
            && EntryKept(directory.world, old(directory.world), r, result, undo)
  {
    directory.Facts();
    var r := directory.world.worker.value.pc.request;
    directory.TakePublish(ExpireUnwritten);
    directory.Interfere();
    directory.TakePublish(UndoPending(undo));
    result := NotSent(Report(r, TimedOut, NotExecuted));
  }

  // ----- `complete` -----

  /** What the system answers while a response is recorded: its write and the deadline checks behind it. */
  datatype CompletionAnswers = CompletionAnswers(fault: Fault, expired: bool, late: bool)

  /** The request is still the worker's own pending one, and the journal can be reached. */
  predicate Completable(w: World, r: Request) {
    w.guard == Free && Owned(w) && Pending(w) == Some(r)
  }

  /**
    How the body of `send_command` ends with a response that is recorded in the state `seen`; a call that leaves
    its own transaction next tells nothing yet.
   */
  function CompletionEnd(r: Request, response: Response, seen: World, standalone: bool, outermost: bool,
                         answers: CompletionAnswers): Option<Report>
  {
    if !Completable(seen, r) || answers.fault != Clean then Some(Report(r, Raised, HostOutcome(response)))
    else if answers.expired then Some(Report(r, TimedOut, HostOutcome(response)))
    else if standalone then None
    else if !answers.late then Some(Report(r, ReturnedResponse, HostOutcome(response)))
    else if outermost then Some(Report(r, LateExit, Completed))
    else Some(Report(r, TimedOut, HostOutcome(response)))
  }

  /** The completed request is no longer pending and nothing is uncertain; the rest of the entry stays. */
  ghost predicate Completion(w: World, before: World) {
    && IsReady(before) && HasOperation(before) && IsReady(w) && HasOperation(w)
    && w.journal.value.generation == before.journal.value.generation
    && Op(w).pending.None? && !Op(w).uncertain
    && Op(w).id == Op(before).id && Op(w).composite == Op(before).composite && Op(w).started == Op(before).started
    && Op(w).artifacts == Op(before).artifacts
  }

  /**
    `complete` after a correlated response, and how the body of `send_command` then ends: it returns, expires
    on the way out, or raises because completion could not be recorded. The outcome is the response's own
    except in an outermost scope that expires while it closes. A call that opened its own transaction tells
    nothing before that transaction is over: then the worker is left returning.
   */
  method Complete(directory: SessionDirectory, standalone: bool, outermost: bool, answers: CompletionAnswers)
    returns (report: Option<Report>, ghost seen: nat)
    requires directory.Valid() && directory.world.worker.Some? && directory.world.worker.value.pc.Responded?
    requires standalone && IsReady(directory.world) && HasOperation(directory.world) ==>
               Op(directory.world).artifacts == []
    modifies directory
    ensures directory.Valid() && directory.Continues() && directory.Since(seen)
    ensures var pc := old(directory.world).worker.value.pc;
            && report == CompletionEnd(pc.request, pc.response, directory.past[seen], standalone, outermost, answers)
            && (report.None? ==> At(directory.world, Returning(pc.request, pc.response)))
            && (report.Some? ==> At(directory.world, Holding) && report.value in directory.world.log.reports)
            && (Completable(directory.past[seen], pc.request) && answers.fault != BeforeReplace ==>
                  Completion(directory.world, directory.past[seen]))
  {
    var pc := directory.world.worker.value.pc;
    directory.Interfere();
    seen := |directory.past| - 1;
    if directory.world.guard == Free && Owned(directory.world) && Pending(directory.world) == Some(pc.request) {
      report := CompleteOwned(directory, standalone, outermost, answers);
    } else {
      var told := FailToComplete(directory);
      report := Some(told);
    }
  }

  /** The completion cannot be recorded; the response's outcome is told all the same. */
  method FailToComplete(directory: SessionDirectory) returns (report: Report)
    requires directory.Valid() && directory.world.worker.Some? && directory.world.worker.value.pc.Responded?
    modifies directory
    ensures directory.Valid() && directory.Continues()
    ensures At(directory.world, Holding) && report in directory.world.log.reports
    ensures var pc := old(directory.world).worker.value.pc;
            report == Report(pc.request, Raised, HostOutcome(pc.response))
  {
    var pc := directory.world.worker.value.pc;
    directory.TakePoll(CompleteFails);
    report := Report(pc.request, Raised, HostOutcome(pc.response));
  }

  /** The pending request is the worker's own. */
  method CompleteOwned(directory: SessionDirectory, standalone: bool, outermost: bool, answers: CompletionAnswers)
    returns (report: Option<Report>)
    requires directory.Valid() && directory.world.worker.Some? && directory.world.worker.value.pc.Responded?
    requires directory.world.guard == Free && Owned(directory.world)
    requires Pending(directory.world) == Some(directory.world.worker.value.pc.request)
    requires standalone ==> Op(directory.world).artifacts == []
    modifies directory
    ensures directory.Valid() && directory.Continues()
    ensures var pc := old(directory.world).worker.value.pc;
            && report == CompletionEnd(pc.request, pc.response, old(directory.world), standalone, outermost, answers)
            && (report.None? ==> At(directory.world, Returning(pc.request, pc.response)))
            && (report.Some? ==> At(directory.world, Holding) && report.value in directory.world.log.reports)
            && (answers.fault != BeforeReplace ==> Completion(directory.world, old(directory.world)))
  {
    if standalone && answers.fault == Clean && !answers.expired {
      directory.TakePoll(ReturnResponse);
      return None;
    }
    var told := RecordCompletion(directory, outermost, answers);
    report := Some(told);
  }

  /** The journal write of `complete`, and how the body ends when it does not leave its own transaction next. */
  method RecordCompletion(directory: SessionDirectory, outermost: bool, answers: CompletionAnswers)
    returns (report: Report)
    requires directory.Valid() && directory.world.worker.Some? && directory.world.worker.value.pc.Responded?
    requires directory.world.guard == Free && Owned(directory.world)
    requires Pending(directory.world) == Some(directory.world.worker.value.pc.request)
    modifies directory
    ensures directory.Valid() && directory.Continues()
    ensures At(directory.world, Holding) && report in directory.world.log.reports
    ensures var pc := old(directory.world).worker.value.pc;
            && Some(report) == CompletionEnd(pc.request, pc.response, old(directory.world), false, outermost, answers)
            && (answers.fault != BeforeReplace ==> Completion(directory.world, old(directory.world)))
  {
    var pc := directory.world.worker.value.pc;
    var exit := if answers.fault != Clean then Raised else if answers.expired then TimedOut
                else ReturnExit(answers.late, outermost);
    directory.TakePoll(PollStep.Complete(answers.fault, exit));
    report := Report(pc.request, exit, if exit == LateExit then Completed else HostOutcome(pc.response));
  }

  // ----- `withdraw` -----

  datatype Withdrawn = Withdrawn(proved: bool, restored: bool)

  /** What the system answers while a request is withdrawn: the second read of the moved file, its unlink, the write. */
  datatype WithdrawAnswers = WithdrawAnswers(unreadable: bool, unlinked: bool, fault: Fault)

  /** The bridge claims by rename, and the file that waits is the one this worker published. */
  predicate Withdrawable(w: World, r: Request) {
    && w.guard == Free && Owned(w) && Pending(w) == Some(r) && w.heartbeat == RenameV1
    && w.command.Some? && w.command.value.request == Some(r)
  }

  /** The file at `command.lua` is still the one that was opened. */
  predicate StillThere(found: World, moved: World) {
    found.command.Some? && moved.command == found.command
  }

  /** How a withdrawal ends that opens the command in the state `found` and renames it in the state `moved`. */
  function WithdrawEnd(r: Request, found: World, moved: World, answers: WithdrawAnswers): Withdrawn {
    var proved := Withdrawable(found, r) && StillThere(found, moved) && !answers.unreadable;
    Withdrawn(proved, proved && answers.unlinked && answers.fault == Clean)
  }

  /** What a withdrawal recorded and reported. */
  ghost predicate Concluded(w: World, before: World, r: Request, result: Withdrawn) {
    && At(w, Holding)
    && Report(r, TimedOut, if result.proved then NotExecuted else Unknown) in w.log.reports
    && (result.restored ==> result.proved && Unpublished(w, before, r))
  }

  /**
    `withdraw`: competes with the bridge's claim for the command file. `proved` is the code's own
    conclusion that the request can never run; then no continuation runs it. It comes to that conclusion exactly
    when the file it moved away is the one it opened and had published itself. When the journal could be
    rewritten as well it is exactly what it was before the request was published.
   */
  method Withdraw(directory: SessionDirectory, answers: WithdrawAnswers)
    returns (result: Withdrawn, ghost found: nat, ghost moved: nat)
    requires directory.Valid() && directory.world.worker.Some? && directory.world.worker.value.pc.Expired?
    modifies directory
    ensures directory.Valid() && directory.Continues() && directory.Since(found) && directory.Since(moved)
    ensures var r := old(directory.world).worker.value.pc.request;
            && result == WithdrawEnd(r, directory.past[found], directory.past[moved], answers)
            && Concluded(directory.world, old(directory.world), r, result)
            && (result.proved ==> CannotRun(directory.world, r) && !MayExecute(directory.world, r))
  {
    var r := directory.world.worker.value.pc.request;
    result, found, moved := Compete(directory, answers);
    if result.proved {
      NeverRuns(directory, r);
    }
  }

  /** The filesystem part of `withdraw`. */
  method Compete(directory: SessionDirectory, answers: WithdrawAnswers)
    returns (result: Withdrawn, ghost found: nat, ghost moved: nat)
    requires directory.Valid() && directory.world.worker.Some? && directory.world.worker.value.pc.Expired?
    modifies directory
    ensures directory.Valid() && directory.Continues() && directory.Since(found) && directory.Since(moved)
    ensures var r := old(directory.world).worker.value.pc.request;
            && result == WithdrawEnd(r, directory.past[found], directory.past[moved], answers)
            && Concluded(directory.world, old(directory.world), r, result)
  {
    var r := directory.world.worker.value.pc.request;
    directory.Interfere();
    found, moved := |directory.past| - 1, |directory.past| - 1;
    if directory.world.guard != Free || !Owned(directory.world) || Pending(directory.world) != Some(r)
       || directory.world.heartbeat != RenameV1
       || directory.world.command.None? || directory.world.command.value.request != Some(r) {
      directory.TakePoll(GiveUp);
      return Withdrawn(false, false), found, moved;
    }
    result, moved := OpenPending(directory, answers);
  }

  /** The command file is opened and its header checked; from then on its inode is known. */
  method OpenPending(directory: SessionDirectory, answers: WithdrawAnswers)
    returns (result: Withdrawn, ghost moved: nat)
    requires directory.Valid() && WithdrawEnabled(directory.world, OpenCommand)
    modifies directory
    ensures directory.Valid() && directory.Continues() && directory.Since(moved)
    ensures var r := old(directory.world).worker.value.pc.request;
            && result == MovedEnd(StillThere(old(directory.world), directory.past[moved]), answers)
            && Concluded(directory.world, old(directory.world), r, result)
  {
    directory.TakeWithdraw(OpenCommand);
    result, moved := MoveAway(directory, answers);
  }

  /** The rename to the private name, which a claim of the bridge can beat. */
  method MoveAway(directory: SessionDirectory, answers: WithdrawAnswers)
    returns (result: Withdrawn, ghost moved: nat)
    requires directory.Valid() && directory.world.worker.Some? && directory.world.worker.value.pc.WithdrawOpened?
    modifies directory
    ensures directory.Valid() && directory.Continues() && directory.Since(moved)
    ensures var pc := old(directory.world).worker.value.pc;
            && result == MovedEnd(directory.past[moved].command == Some(Command(pc.inode, Some(pc.request))), answers)
            && Concluded(directory.world, old(directory.world), pc.request, result)
  {
    directory.Facts();
    directory.Interfere();
    moved := |directory.past| - 1;
    if directory.world.command.None? {
      directory.TakeWithdraw(LoseRace);
      return Withdrawn(false, false), moved;
    }
    directory.TakeWithdraw(MoveCommand);
    result := VerifyMoved(directory, answers);
  }

  /** How a withdrawal ends after the rename; `own` says whether the moved file is the opened one. */
  function MovedEnd(own: bool, answers: WithdrawAnswers): Withdrawn {
    Withdrawn(own && !answers.unreadable, own && !answers.unreadable && answers.unlinked && answers.fault == Clean)
  }

  /** `withdraw` once the command file sits at the private name; an unverified one is put back or retained. */
  method VerifyMoved(directory: SessionDirectory, answers: WithdrawAnswers) returns (result: Withdrawn)
    requires directory.Valid() && directory.world.worker.Some? && directory.world.worker.value.pc.WithdrawMoved?
    modifies directory
    ensures directory.Valid() && directory.Continues()
    ensures var pc := old(directory.world).worker.value.pc;
            && result == MovedEnd(pc.moved == Command(pc.inode, Some(pc.request)), answers)
            && Concluded(directory.world, old(directory.world), pc.request, result)
            && (!result.proved ==>
                  directory.world.command == Some(pc.moved) || pc.moved in directory.world.retained)
  {
    directory.Facts();
    var pc := directory.world.worker.value.pc;
    directory.Interfere();
    if answers.unreadable {
      directory.TakeWithdraw(Retain);
      return Withdrawn(false, false);
    }
    if pc.moved == Command(pc.inode, Some(pc.request)) {
      directory.TakeWithdraw(Verify);
      result := RecordWithdrawal(directory, answers.unlinked, answers.fault);
    } else {
      result := PutBack(directory);
    }
  }

  /** The moved file is somebody else's: link it back, or retain it when its place is taken. */
  method PutBack(directory: SessionDirectory) returns (result: Withdrawn)
    requires directory.Valid() && directory.world.worker.Some? && directory.world.worker.value.pc.WithdrawMoved?
    requires var pc := directory.world.worker.value.pc; pc.moved != Command(pc.inode, Some(pc.request))
    modifies directory
    ensures directory.Valid() && directory.Continues()
    ensures result == Withdrawn(false, false)
    ensures Concluded(directory.world, old(directory.world), old(directory.world).worker.value.pc.request, result)
    ensures var moved := old(directory.world).worker.value.pc.moved;
            if old(directory.world).command.None? then directory.world.command == Some(moved)
            else directory.world.command == old(directory.world).command && moved in directory.world.retained
  {
    if directory.world.command.None? {
      directory.TakeWithdraw(Restore);
    } else {
      directory.TakeWithdraw(Retain);
    }
    result := Withdrawn(false, false);
  }

  /** `withdraw` once the moved file is known to be the worker's own. */
  method RecordWithdrawal(directory: SessionDirectory, unlinked: bool, fault: Fault) returns (result: Withdrawn)
    requires directory.Valid() && directory.world.worker.Some? && directory.world.worker.value.pc.WithdrawVerified?
    modifies directory
    ensures directory.Valid() && directory.Continues()
    ensures result == Withdrawn(true, unlinked && fault == Clean)
    ensures Concluded(directory.world, old(directory.world), old(directory.world).worker.value.pc.request, result)
  {
    directory.Facts();
    directory.Interfere();
    directory.TakeWithdraw(DropCommand(unlinked));
    result := Withdrawn(true, false);
    if unlinked {
      result := RestoreWithdrawn(directory, fault);
    }
  }

  /** The journal write of `withdraw`: the entry of the moment before the request was published. */
  method RestoreWithdrawn(directory: SessionDirectory, fault: Fault) returns (result: Withdrawn)
    requires directory.Valid() && directory.world.worker.Some? && directory.world.worker.value.pc.WithdrawDropped?
    modifies directory
    ensures directory.Valid() && directory.Continues()
    ensures result == Withdrawn(true, fault == Clean)
    ensures Concluded(directory.world, old(directory.world), old(directory.world).worker.value.pc.request, result)
  {
    directory.Facts();
    directory.Interfere();
    directory.Facts();
    directory.TakeWithdraw(UndoWithdrawn(fault));
    result := Withdrawn(true, fault == Clean);
  }

  /** What a `not_executed` report of an expired request means. */
  lemma NeverRuns(directory: SessionDirectory, r: Request)
    requires directory.Valid() && Report(r, TimedOut, NotExecuted) in directory.world.log.reports
    ensures CannotRun(directory.world, r) && !MayExecute(directory.world, r)
  {
    directory.Facts();
    assert SoundReport(directory.world, Report(r, TimedOut, NotExecuted));
    forall steps, v | Reaches(directory.world, steps, v)
      ensures v.log.executed[r] == 0
    {
      RunBars(directory.world, steps, v, r);
    }
  }
}
