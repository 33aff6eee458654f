/** `SessionManager.send_command` over one session directory. */
module SendCommand {
  import opened Basics
  import opened BridgeReply
  import opened TransactionWorld
  import opened TransactionProtocol
  import opened TransactionInvariant
  import opened TransactionArtifacts
  import opened TransactionSafety
  import opened TransactionFences
  import opened SessionTransactions
  import opened RequestTransactions

  /** The report is sound: `not_executed` in every continuation, `completed` exactly by a normal return. */
  ghost predicate Sound(w: World, report: Report) {
    && report in w.log.reports
    && (report.outcome == NotExecuted && !MetFence(report.exit) ==> !MayExecute(w, report.request))
    && (report.outcome == Completed && report.exit != LateExit ==>
          report.request in w.log.returned && w.log.executed[report.request] == 1)
  }

  lemma ReportedIsSound(directory: SessionDirectory, report: Report)
    requires directory.Valid() && report in directory.world.log.reports
    ensures Sound(directory.world, report)
  {
    directory.Facts();
    var w := directory.world;
    forall steps, v | Reaches(w, steps, v)
      ensures report.outcome == NotExecuted && !MetFence(report.exit) ==> v.log.executed[report.request] == 0
    {
      OutcomesAreSound(directory.origin, directory.run, w, report, steps, v);
    }
    assert Reaches(w, [], w);
    OutcomesAreSound(directory.origin, directory.run, w, report, [], w);
  }

  /** The worker's operation, while it is still there, has no staging files. */
  predicate StagesNothing(w: World) {
    IsReady(w) && HasOperation(w) ==> Op(w).artifacts == []
  }

  // ----- One round of polling -----

  /** What a polling loop, or one round of it, came to; `OnItsWay` carries the response that is being returned. */
  datatype Ending = Expiring | OnItsWay(response: Response) | Told(report: Report)

  /**
    What the system answers in one round: the state lock stays held, the process started by this call has exited,
    the recorded process is gone, and how a response ends.
   */
  datatype Round = Round(busy: bool, exited: bool, gone: bool, completion: CompletionAnswers)

  /** The states in which a round checks ownership, reads the response, and records it. */
  datatype RoundSight = RoundSight(checked: nat, looked: nat, seen: nat)

  /** `response.json` answers this request. */
  predicate IsAnswered(w: World, r: Request) {
    w.response.Some? && w.response.value.id == Some(r)
  }

  /** How a round ends once ownership was checked. */
  function LookEnd(r: Request, looked: World, seen: World, round: Round, standalone: bool, outermost: bool): Ending {
    if IsAnswered(looked, r) then
      var told := CompletionEnd(r, looked.response.value, seen, standalone, outermost, round.completion);
      if told.Some? then Told(told.value) else OnItsWay(looked.response.value)
    else if round.gone then Told(Report(r, Raised, Unknown))
    else Expiring
  }

  /** How a round ends that checks ownership in `checked`, reads the response in `looked` and records it in `seen`. */
  function RoundEnd(r: Request, checked: World, looked: World, seen: World, round: Round, standalone: bool,
                    outermost: bool): Ending
  {
    if round.busy then Told(Report(r, Raised, Unknown))
    else if SeesFence(checked) then Told(Report(r, FencedWhilePolling, NotExecuted))
    else if !Owned(checked) || round.exited then Told(Report(r, Raised, Unknown))
    else LookEnd(r, looked, seen, round, standalone, outermost)
  }

  /**
    A round that owns its transaction and finds the response to its request never goes on polling. With a clean
    journal write and time left it returns exactly that response, or, when the call opened its own transaction,
    is on its way out with it.
   */
  lemma AnsweredRoundReturns(r: Request, checked: World, looked: World, seen: World, round: Round, standalone: bool,
                             outermost: bool)
    requires Owned(checked) && !round.busy && !round.exited
    requires looked.response.Some? && looked.response.value.id == Some(r)
    ensures var response := looked.response.value;
            var ending := RoundEnd(r, checked, looked, seen, round, standalone, outermost);
            && !ending.Expiring?
            && (seen.guard == Free && Owned(seen) && Pending(seen) == Some(r)
                && round.completion == CompletionAnswers(Clean, false, false) ==>
                  ending == if standalone then OnItsWay(response)
                            else Told(Report(r, ReturnedResponse, HostOutcome(response))))
  { }

  /** Where the worker stands when a round is over; `Expiring` keeps the entry and the given position. */
  ghost predicate Polled(w: World, before: World, r: Request, ending: Ending, pc: Pc) {
    match ending
    case Told(report) => At(w, Holding) && report in w.log.reports
    case OnItsWay(response) => At(w, Returning(r, response))
    case Expiring =>
      && w.worker.Some? && before.worker.Some? && w.worker == Some(before.worker.value.(pc := pc))
      && (IsReady(w) ==> w.journal == before.journal)
  }

  /** One round: check ownership, look for a correlated response, check the process. */
  method PollOnce(directory: SessionDirectory, round: Round, standalone: bool, outermost: bool)
    returns (ending: Ending, ghost sight: RoundSight)
    requires directory.Valid() && directory.world.worker.Some? && directory.world.worker.value.pc.Polling?
    requires standalone ==> StagesNothing(directory.world)
    modifies directory
    ensures directory.Valid() && directory.Continues()
    ensures directory.Since(sight.checked) && directory.Since(sight.looked) && directory.Since(sight.seen)
    ensures var r := old(directory.world).worker.value.pc.request;
            && ending == RoundEnd(r, directory.past[sight.checked], directory.past[sight.looked],
                                  directory.past[sight.seen], round, standalone, outermost)
            && Polled(directory.world, old(directory.world), r, ending, old(directory.world).worker.value.pc)
  {
    var r := directory.world.worker.value.pc.request;
    directory.Interfere();
    sight := RoundSight(|directory.past| - 1, |directory.past| - 1, |directory.past| - 1);
    if !round.busy && SeesFence(directory.world) {
      directory.TakePoll(SeeFence);
      return Told(Report(r, FencedWhilePolling, NotExecuted)), sight;
    }
    if round.busy || !Owned(directory.world) || round.exited {
      directory.TakePoll(PollFails);
      return Told(Report(r, Raised, Unknown)), sight;
    }
    ghost var looked, seen;
    ending, looked, seen := LookForResponse(directory, round, standalone, outermost);
    sight := sight.(looked := looked, seen := seen);
  }

  /** The rest of a round: a correlated response first, then the process. */
  method LookForResponse(directory: SessionDirectory, round: Round, standalone: bool, outermost: bool)
    returns (ending: Ending, ghost looked: nat, ghost seen: nat)
    requires directory.Valid() && directory.world.worker.Some? && directory.world.worker.value.pc.Polling?
    requires standalone ==> StagesNothing(directory.world)
    modifies directory
    ensures directory.Valid() && directory.Continues() && directory.Since(looked) && directory.Since(seen)
    ensures var r := old(directory.world).worker.value.pc.request;
            && ending == LookEnd(r, directory.past[looked], directory.past[seen], round, standalone, outermost)
            && Polled(directory.world, old(directory.world), r, ending, old(directory.world).worker.value.pc)
  {
    var r := directory.world.worker.value.pc.request;
    directory.Interfere();
    looked, seen := |directory.past| - 1, |directory.past| - 1;
    if directory.world.response.Some? && directory.world.response.value.id == Some(r) {
      ending, seen := TakeResponse(directory, round.completion, standalone, outermost);
      return;
    }
    if round.gone {
      directory.TakePoll(PollFails);
      return Told(Report(r, Raised, Unknown)), looked, seen;
    }
    ending := Expiring;
  }

  /** A correlated response is there: read it and complete the request. */
  method TakeResponse(directory: SessionDirectory, answers: CompletionAnswers, standalone: bool, outermost: bool)
    returns (ending: Ending, ghost seen: nat)
    requires directory.Valid() && PollEnabled(directory.world, ReadResponse)
    requires standalone ==> StagesNothing(directory.world)
    modifies directory
    ensures directory.Valid() && directory.Continues() && directory.Since(seen)
    ensures var r := old(directory.world).worker.value.pc.request;
            var response := old(directory.world).response.value;
            var told := CompletionEnd(r, response, directory.past[seen], standalone, outermost, answers);
            && ending == (if told.Some? then Told(told.value) else OnItsWay(response))
            && (ending.Told? ==> At(directory.world, Holding) && ending.report in directory.world.log.reports)
            && (ending.OnItsWay? ==> At(directory.world, Returning(r, response)))
  {
    var response := directory.world.response.value;
    directory.TakePoll(ReadResponse);
    var report;
    report, seen := RequestTransactions.Complete(directory, standalone, outermost, answers);
    ending := if report.Some? then Told(report.value) else OnItsWay(response);
  }

  // ----- The polling loop -----

  /** The ending of a round by what was seen in it. */
  ghost function EndSeen(past: seq<World>, sight: RoundSight, r: Request, round: Round, standalone: bool,
                         outermost: bool): Ending
    requires sight.checked < |past| && sight.looked < |past| && sight.seen < |past|
  {
    RoundEnd(r, past[sight.checked], past[sight.looked], past[sight.seen], round, standalone, outermost)
  }

  /** Every state of these rounds lies in the past, and not before `start`. */
  ghost predicate AllSeen(past: seq<World>, start: nat, sights: seq<RoundSight>) {
    forall i :: 0 <= i < |sights| ==>
      && start <= sights[i].checked < |past| && start <= sights[i].looked < |past|
      && start <= sights[i].seen < |past|
  }

  /**
    The loop by its rounds: it goes on exactly while a round ends nothing, ends as its last round did, and
    expires only when the budget of rounds is used up.
   */
  ghost predicate PollsAs(past: seq<World>, sights: seq<RoundSight>, rounds: seq<Round>, r: Request, ending: Ending,
                          standalone: bool, outermost: bool)
    requires AllSeen(past, 0, sights)
  {
    && |sights| <= |rounds|
    && (ending.Expiring? ==> |sights| == |rounds|)
    && (!ending.Expiring? ==> sights != [])
    && forall i :: 0 <= i < |sights| ==>
         EndSeen(past, sights[i], r, rounds[i], standalone, outermost)
         == if i < |sights| - 1 then Expiring else ending
  }

  /** The polling loop over a budget of rounds. `Expiring` means the deadline expired while the request was out. */
  method Poll(directory: SessionDirectory, rounds: seq<Round>, standalone: bool, outermost: bool)
    returns (ending: Ending, ghost sights: seq<RoundSight>)
    requires directory.Valid() && directory.world.worker.Some? && directory.world.worker.value.pc.Polling?
    requires standalone ==> StagesNothing(directory.world)
    modifies directory
    ensures directory.Valid() && directory.Continues()
    ensures AllSeen(directory.past, |old(directory.past)| - 1, sights)
    ensures var r := old(directory.world).worker.value.pc.request;
            && PollsAs(directory.past, sights, rounds, r, ending, standalone, outermost)
            && Polled(directory.world, old(directory.world), r, ending, Expired(r))
  {
    ghost var r, start := directory.world.worker.value.pc.request, |directory.past| - 1;
    sights := [];
    for i := 0 to |rounds|
      invariant directory.Valid() && directory.Continues() && AllSeen(directory.past, start, sights)
      invariant |sights| == i && PollsAs(directory.past, sights, rounds[..i], r, Expiring, standalone, outermost)
      invariant Polled(directory.world, old(directory.world), r, Expiring, old(directory.world).worker.value.pc)
    {
      ghost var before, past := sights, directory.past;
      ghost var sight;
      ending, sight := PollOnce(directory, rounds[i], standalone, outermost);
      sights := sights + [sight];
      PollsOn(past, directory.past, start, before, sight, rounds, r, ending, standalone, outermost);
      if ending != Expiring {
        return;
      }
    }
    assert rounds[..|rounds|] == rounds;
    LetExpire(directory);
    ending := Expiring;
  }

  /** The budget is used up. */
  method LetExpire(directory: SessionDirectory)
    requires directory.Valid() && directory.world.worker.Some? && directory.world.worker.value.pc.Polling?
    modifies directory
    ensures directory.Valid() && directory.Continues()
    ensures var r := old(directory.world).worker.value.pc.request;
            Polled(directory.world, old(directory.world), r, Expiring, Expired(r))
  {
    directory.Interfere();
    directory.TakePoll(Expire);
  }

  /** One more round that was seen in a longer past. */
  lemma PollsOn(before: seq<World>, past: seq<World>, start: nat, sights: seq<RoundSight>, sight: RoundSight,
                rounds: seq<Round>, r: Request, ending: Ending, standalone: bool, outermost: bool)
    requires before <= past && AllSeen(before, start, sights) && |sights| < |rounds|
    requires start <= sight.checked < |past| && start <= sight.looked < |past| && start <= sight.seen < |past|
    requires PollsAs(before, sights, rounds[..|sights|], r, Expiring, standalone, outermost)
    requires ending == EndSeen(past, sight, r, rounds[|sights|], standalone, outermost)
    ensures AllSeen(past, start, sights + [sight])
    ensures PollsAs(past, sights + [sight], rounds[..|sights| + 1], r, ending, standalone, outermost)
    ensures ending != Expiring ==> PollsAs(past, sights + [sight], rounds, r, ending, standalone, outermost)
  {
    forall i | 0 <= i < |sights| + 1
      ensures EndSeen(past, (sights + [sight])[i], r, rounds[i], standalone, outermost)
           == if i < |sights| then Expiring else ending
    {
      if i < |sights| {
        assert EndSeen(before, sights[i], r, rounds[..|sights|][i], standalone, outermost) == Expiring;
      }
    }
  }

  // ----- After expiry -----

  /** What the system answers after expiry: the state lock stays held, and the two journal writes. */
  datatype ExpiryAnswers = ExpiryAnswers(busy: bool, fault: Fault, withdraw: WithdrawAnswers)

  /** The states in which expiry checks ownership, reads the response, opens the command and renames it. */
  datatype ExpirySight = ExpirySight(checked: nat, looked: nat, found: nat, moved: nat)

  /** The outcome an expired request is reported with. */
  function ExpiryEnd(r: Request, checked: World, looked: World, found: World, moved: World, answers: ExpiryAnswers)
    : (end: (Outcome, bool))
  {
    if answers.busy || !Owned(checked) then (Unknown, false)
    else if IsAnswered(looked, r) then (HostOutcome(looked.response.value), false)
    else
      var withdrawn := WithdrawEnd(r, found, moved, answers.withdraw);
      (if withdrawn.proved then NotExecuted else Unknown, withdrawn.restored)
  }

  /** How an expired request ends by what was seen. */
  ghost function ExpirySeen(past: seq<World>, sight: ExpirySight, r: Request, answers: ExpiryAnswers): (Outcome, bool)
    requires sight.checked < |past| && sight.looked < |past| && sight.found < |past| && sight.moved < |past|
  {
    ExpiryEnd(r, past[sight.checked], past[sight.looked], past[sight.found], past[sight.moved], answers)
  }

  /**
    After expiry, for a worker that still owns its transaction: a correlated response still completes the
    request, otherwise it is withdrawn if possible. A lost transaction leaves the outcome unknown.
   */
  method ReconcileExpiry(directory: SessionDirectory, answers: ExpiryAnswers)
    returns (report: Report, restored: bool, ghost sight: ExpirySight)
    requires directory.Valid() && directory.world.worker.Some? && directory.world.worker.value.pc.Expired?
    modifies directory
    ensures directory.Valid() && directory.Continues()
    ensures directory.Since(sight.checked) && directory.Since(sight.looked)
    ensures directory.Since(sight.found) && directory.Since(sight.moved)
    ensures At(directory.world, Holding) && report in directory.world.log.reports
    ensures var r := old(directory.world).worker.value.pc.request;
            && ExpirySeen(directory.past, sight, r, answers) == (report.outcome, restored)
            && report.request == r && report.exit == TimedOut
            && (restored ==> Unpublished(directory.world, old(directory.world), r))
  {
    var r := directory.world.worker.value.pc.request;
    directory.Interfere();
    sight := ExpirySight(|directory.past| - 1, |directory.past| - 1, |directory.past| - 1, |directory.past| - 1);
    if answers.busy || !Owned(directory.world) {
      directory.TakePoll(GiveUp);
      return Report(r, TimedOut, Unknown), false, sight;
    }
    ghost var looked, found, moved;
    report, restored, looked, found, moved := LookAgain(directory, answers);
    sight := sight.(looked := looked, found := found, moved := moved);
  }

  /** One more look at the response; without it the request is withdrawn. */
  method LookAgain(directory: SessionDirectory, answers: ExpiryAnswers)
    returns (report: Report, restored: bool, ghost looked: nat, ghost found: nat, ghost moved: nat)
    requires directory.Valid() && directory.world.worker.Some? && directory.world.worker.value.pc.Expired?
    modifies directory
    ensures directory.Valid() && directory.Continues()
    ensures directory.Since(looked) && directory.Since(found) && directory.Since(moved)
    ensures At(directory.world, Holding) && report in directory.world.log.reports
    ensures var r := old(directory.world).worker.value.pc.request;
            var withdrawn := WithdrawEnd(r, directory.past[found], directory.past[moved], answers.withdraw);
            && report.request == r && report.exit == TimedOut
            && (if IsAnswered(directory.past[looked], r)
                then report.outcome == HostOutcome(directory.past[looked].response.value) && !restored
                else
                  && report.outcome == (if withdrawn.proved then NotExecuted else Unknown)
                  && restored == withdrawn.restored)
            && (restored ==> Unpublished(directory.world, old(directory.world), r))
  {
    var r := directory.world.worker.value.pc.request;
    directory.Interfere();
    looked, found, moved := |directory.past| - 1, |directory.past| - 1, |directory.past| - 1;
    var response := directory.world.response;
    if response.Some? && response.value.id == Some(r) {
      report := CompleteExpired(directory, answers.fault);
      restored := false;
      return;
    }
    var result;
    result, found, moved := Withdraw(directory, answers.withdraw);
    restored := result.restored;
    report := Report(r, TimedOut, if result.proved then NotExecuted else Unknown);
  }

  /** A response that came in time after all: its outcome is told whether or not it can be recorded. */
  method CompleteExpired(directory: SessionDirectory, fault: Fault) returns (report: Report)
    requires directory.Valid() && PollEnabled(directory.world, ReconcileFails)
    modifies directory
    ensures directory.Valid() && directory.Continues()
    ensures At(directory.world, Holding) && report in directory.world.log.reports
    ensures var r := old(directory.world).worker.value.pc.request;
            && report == Report(r, TimedOut, HostOutcome(old(directory.world).response.value))
            && (Completable(old(directory.world), r) && fault != BeforeReplace ==>
                  Completion(directory.world, old(directory.world)))
  {
    var r := directory.world.worker.value.pc.request;
    report := Report(r, TimedOut, HostOutcome(directory.world.response.value));
    if directory.world.guard == Free && Owned(directory.world) && Pending(directory.world) == Some(r) {
      directory.TakePoll(Reconcile(fault));
    } else {
      directory.TakePoll(ReconcileFails);
    }
  }

  // ----- The body of `send_command` -----

  /** What the system answers while a command is sent. */
  datatype SendAnswers = SendAnswers(publish: PublishAnswers, rounds: seq<Round>, expiry: ExpiryAnswers)

  /** What was seen while a request was out, and how polling ended; `Expiring` also when there was none. */
  datatype WaitSight = WaitSight(rounds: seq<RoundSight>, ending: Ending, expiry: ExpirySight)

  /** What was seen while a command was sent. */
  datatype SendSight = SendSight(publish: PublishSight, wait: WaitSight)

  /** Every state that was looked at lies in the past, and not before `start`. */
  ghost predicate WaitSeen(past: seq<World>, start: nat, sight: WaitSight) {
    && AllSeen(past, start, sight.rounds)
    && start <= sight.expiry.checked < |past| && start <= sight.expiry.looked < |past|
    && start <= sight.expiry.found < |past| && start <= sight.expiry.moved < |past|
  }

  ghost predicate SendSeen(past: seq<World>, start: nat, sight: SendSight) {
    && start <= sight.publish.entered < |past| && start <= sight.publish.looked < |past|
    && WaitSeen(past, start, sight.wait)
  }

  /**
    How a visible request ends, decided by what was seen and answered: `None` is a response on its way out. `late`
    is a deadline that expired as the request became visible; then nothing is polled.
   */
  ghost predicate AwaitsAs(past: seq<World>, sight: WaitSight, r: Request, report: Option<Report>, restored: bool,
                           late: bool, standalone: bool, outermost: bool, answers: SendAnswers)
    requires WaitSeen(past, 0, sight)
  {
    && (late ==> sight.ending.Expiring?)
    && (!late ==> PollsAs(past, sight.rounds, answers.rounds, r, sight.ending, standalone, outermost))
    && match sight.ending
       case Told(told) => report == Some(told) && !restored
       case OnItsWay(_) => report == None && !restored
       case Expiring =>
         var expired := ExpirySeen(past, sight.expiry, r, answers.expiry);
         report == Some(Report(r, TimedOut, expired.0)) && restored == expired.1
  }

  /** How the body of a call ends, decided by what was seen and answered. */
  ghost predicate SendsAs(past: seq<World>, sight: SendSight, r: Request, report: Option<Report>, restored: bool,
                          standalone: bool, outermost: bool, answers: SendAnswers)
    requires SendSeen(past, 0, sight)
  {
    var published := PublishEnd(r, past[sight.publish.entered], past[sight.publish.looked], answers.publish);
    if published.NotSent? then report == Some(published.report) && !restored
    else AwaitsAs(past, sight.wait, r, report, restored, published.VisibleLate?, standalone, outermost, answers)
  }

  /** How the body of a call ends: with a report, or on its way out of its own transaction. */
  ghost predicate BodyDone(w: World, r: Request, report: Option<Report>, standalone: bool, outermost: bool) {
    match report
    case Some(p) =>
      && At(w, Holding) && p.request == r && p in w.log.reports && (p.exit == LateExit ==> outermost)
      && p.exit != FencedWhileFinishing && (standalone ==> !Returns(p.exit) || p.exit == TimedOut)
    case None => standalone && w.worker.Some? && w.worker.value.pc.Returning? && w.worker.value.pc.request == r
  }

  /** A visible request: poll for its response, and reconcile an expiry. */
  method Await(directory: SessionDirectory, late: bool, standalone: bool, outermost: bool, answers: SendAnswers)
    returns (report: Option<Report>, restored: bool, ghost sight: WaitSight)
    requires directory.Valid() && directory.world.worker.Some?
    requires var pc := directory.world.worker.value.pc; if late then pc.Expired? else pc.Polling?
    requires standalone ==> StagesNothing(directory.world)
    modifies directory
    ensures directory.Valid() && directory.Continues()
    ensures WaitSeen(directory.past, |old(directory.past)| - 1, sight)
    ensures var r := old(directory.world).worker.value.pc.request;
            && AwaitsAs(directory.past, sight, r, report, restored, late, standalone, outermost, answers)
            && BodyDone(directory.world, r, report, standalone, outermost)
            && (report.None? ==> sight.ending.OnItsWay? && At(directory.world, Returning(r, sight.ending.response)))
            && (restored ==>
                  && report == Some(Report(r, TimedOut, NotExecuted))
                  && Unpublished(directory.world, old(directory.world), r))
  {
    var r := directory.world.worker.value.pc.request;
    ghost var rounds, now := [], |directory.past| - 1;
    sight := WaitSight([], Expiring, ExpirySight(now, now, now, now));
    if !late {
      var ending;
      ending, rounds := Poll(directory, answers.rounds, standalone, outermost);
      sight := sight.(rounds := rounds, ending := ending);
      if !ending.Expiring? {
        PollingEnds(directory.past, rounds, answers.rounds, r, ending, standalone, outermost);
        return if ending.OnItsWay? then None else Some(ending.report), false, sight;
      }
    }
    ghost var past := directory.past;
    ghost var expiry;
    var told;
    told, restored, expiry := ReconcileExpiry(directory, answers.expiry);
    report, sight := Some(told), WaitSight(rounds, Expiring, expiry);
    if !late {
      PolledInALongerPast(past, directory.past, rounds, answers.rounds, r, Expiring, standalone, outermost);
    }
  }

  /** The exits a polling loop can end with. */
  lemma PollingEnds(past: seq<World>, sights: seq<RoundSight>, rounds: seq<Round>, r: Request, ending: Ending,
                    standalone: bool, outermost: bool)
    requires AllSeen(past, 0, sights) && PollsAs(past, sights, rounds, r, ending, standalone, outermost)
    ensures ending.OnItsWay? ==> standalone
    ensures ending.Told? ==>
              && ending.report.request == r && (ending.report.exit == LateExit ==> outermost)
              && ending.report.exit != FencedWhileFinishing
              && (standalone ==> !Returns(ending.report.exit) || ending.report.exit == TimedOut)
  {
    if ending != Expiring {
      assert ending == EndSeen(past, sights[|sights| - 1], r, rounds[|sights| - 1], standalone, outermost);
    }
  }

  /** What was seen stays seen. */
  lemma PolledInALongerPast(before: seq<World>, past: seq<World>, sights: seq<RoundSight>, rounds: seq<Round>,
                            r: Request, ending: Ending, standalone: bool, outermost: bool)
    requires before <= past && AllSeen(before, 0, sights)
    requires PollsAs(before, sights, rounds, r, ending, standalone, outermost)
    ensures AllSeen(past, 0, sights) && PollsAs(past, sights, rounds, r, ending, standalone, outermost)
  {
    forall i | 0 <= i < |sights|
      ensures EndSeen(past, sights[i], r, rounds[i], standalone, outermost)
           == if i < |sights| - 1 then Expiring else ending
    {
      assert EndSeen(before, sights[i], r, rounds[i], standalone, outermost)
          == EndSeen(past, sights[i], r, rounds[i], standalone, outermost);
    }
  }

  /**
    The body of `send_command` inside a transaction: publish, poll until a correlated response, the fence, a
    dead process or the deadline, then complete, or reconcile an expiry by a late response or by withdrawal.
    The budget has one round of answers for each polling interval, `standalone` says whether the call opened this
    transaction itself and `outermost` whether it owns the deadline scope. What was seen and answered decides the
    report. `restored` is returned when the request was taken back and the journal rewritten.
   */
  method Send(directory: SessionDirectory, r: Request, standalone: bool, outermost: bool, answers: SendAnswers)
    returns (report: Option<Report>, restored: bool, ghost sight: SendSight)
    requires directory.Valid() && At(directory.world, Holding) && r !in directory.world.log.issued
    requires standalone ==> StagesNothing(directory.world)
    modifies directory
    ensures directory.Valid() && directory.Continues()
    ensures SendSeen(directory.past, |old(directory.past)| - 1, sight)
    ensures SendsAs(directory.past, sight, r, report, restored, standalone, outermost, answers)
    ensures report.None? ==>
              sight.wait.ending.OnItsWay? && At(directory.world, Returning(r, sight.wait.ending.response))
    ensures BodyDone(directory.world, r, report, standalone, outermost)
    ensures report.Some? ==> Sound(directory.world, report.value)
    ensures restored ==>
              && report == Some(Report(r, TimedOut, NotExecuted))
              && directory.world.journal == old(directory.world).journal
  {
    report, restored, sight := PublishAndAwait(directory, r, standalone, outermost, answers);
    if report.Some? {
      ReportedIsSound(directory, report.value);
    }
  }

  /** The body without the reason why its report is sound. */
  method PublishAndAwait(directory: SessionDirectory, r: Request, standalone: bool, outermost: bool,
                         answers: SendAnswers)
    returns (report: Option<Report>, restored: bool, ghost sight: SendSight)
    requires directory.Valid() && At(directory.world, Holding) && r !in directory.world.log.issued
    requires standalone ==> StagesNothing(directory.world)
    modifies directory
    ensures directory.Valid() && directory.Continues()
    ensures SendSeen(directory.past, |old(directory.past)| - 1, sight)
    ensures SendsAs(directory.past, sight, r, report, restored, standalone, outermost, answers)
    ensures report.None? ==>
              sight.wait.ending.OnItsWay? && At(directory.world, Returning(r, sight.wait.ending.response))
    ensures BodyDone(directory.world, r, report, standalone, outermost)
    ensures restored ==>
              && report == Some(Report(r, TimedOut, NotExecuted))
              && directory.world.journal == old(directory.world).journal
  {
    directory.Facts();
    ghost var before, now := directory.world, |directory.past| - 1;
    ghost var publish, wait := PublishSight(now, now, now), WaitSight([], Expiring, ExpirySight(now, now, now, now));
    var publication;
    publication, publish := Publish(directory, r, answers.publish);
    ghost var journaled := directory.world;
    if publication.NotSent? {
      report, restored := Some(publication.report), false;
    } else {
      report, restored, wait := Await(directory, publication.VisibleLate?, standalone, outermost, answers);
    }
    sight := SendSight(publish, wait);
    if restored {
      TakenBackIsIdentity(directory.world, journaled, before, r);
    }
  }

  // ----- A whole call -----

  datatype Called = NotAdmitted | Over(report: Report)

  /** What the system answers during a whole call. */
  datatype CallAnswers = CallAnswers(entry: EntryAnswers, send: SendAnswers, finish: FinishAnswers)

  /** What was seen during a whole call; the exit checks ownership in `entered` and cleans up in `swept`. */
  datatype CallSight = CallSight(entry: EntrySight, send: Option<SendSight>, entered: nat, swept: nat)

  /** How a whole call ends: as its body did, or with the response that was on its way out. */
  ghost predicate Concludes(past: seq<World>, sent: SendSight, entered: nat, swept: nat, r: Request, told: Report,
                            outermost: bool, answers: CallAnswers)
    requires SendSeen(past, 0, sent) && entered < |past| && swept < |past|
  {
    || (exists restored :: SendsAs(past, sent, r, Some(told), restored, true, outermost, answers.send))
    || (&& SendsAs(past, sent, r, None, false, true, outermost, answers.send) && sent.wait.ending.OnItsWay?
        && (Retirable(past[entered], past[swept], false, answers.finish) ==>
              told == ReturnReport(r, sent.wait.ending.response, outermost, answers.finish.late)))
  }

  /** The report of a call that returns this response; `late` is a deadline that expires as its scope closes. */
  function ReturnReport(r: Request, response: Response, outermost: bool, late: bool): Report {
    if !late then Report(r, ReturnedResponse, HostOutcome(response))
    else if outermost then Report(r, LateExit, Completed)
    else Report(r, TimedOut, HostOutcome(response))
  }

  /** A round that owns its transaction, finds the response to its request, and records it in time. */
  ghost predicate Finds(past: seq<World>, sight: RoundSight, r: Request, round: Round)
    requires sight.checked < |past| && sight.looked < |past| && sight.seen < |past|
  {
    && Owned(past[sight.checked]) && !round.busy && !round.exited
    && past[sight.looked].response.Some? && past[sight.looked].response.value.id == Some(r)
    && past[sight.seen].guard == Free && Owned(past[sight.seen]) && Pending(past[sight.seen]) == Some(r)
    && round.completion == CompletionAnswers(Clean, false, false)
  }

  /**
    A whole call whose request became visible, whose round found the response and whose operation can be retired in
    time returns exactly that response's outcome; and the round that found it was the last one.
   */
  lemma AnsweredCallReturns(past: seq<World>, sent: SendSight, entered: nat, swept: nat, r: Request, told: Report,
                            outermost: bool, answers: CallAnswers, i: nat)
    requires SendSeen(past, 0, sent) && entered < |past| && swept < |past|
    requires Concludes(past, sent, entered, swept, r, told, outermost, answers)
    requires PublishEnd(r, past[sent.publish.entered], past[sent.publish.looked], answers.send.publish) == Visible
    requires i < |sent.wait.rounds| && i < |answers.send.rounds|
    requires Finds(past, sent.wait.rounds[i], r, answers.send.rounds[i])
    ensures i == |sent.wait.rounds| - 1
    ensures Retirable(past[entered], past[swept], false, answers.finish) && !answers.finish.late ==>
              told == Report(r, ReturnedResponse,
                             HostOutcome(past[sent.wait.rounds[i].looked].response.value))
  {
    var sight := sent.wait.rounds[i];
    AnsweredRoundReturns(r, past[sight.checked], past[sight.looked], past[sight.seen], answers.send.rounds[i], true,
                         outermost);
    assert EndSeen(past, sight, r, answers.send.rounds[i], true, outermost)
        == OnItsWay(past[sight.looked].response.value);
  }

  /** What was seen stays seen. */
  lemma SentInALongerPast(before: seq<World>, past: seq<World>, sight: SendSight, r: Request, report: Option<Report>,
                          restored: bool, outermost: bool, answers: SendAnswers)
    requires before <= past && SendSeen(before, 0, sight)
    requires SendsAs(before, sight, r, report, restored, true, outermost, answers)
    ensures SendSeen(past, 0, sight) && SendsAs(past, sight, r, report, restored, true, outermost, answers)
  {
    if PublishEnd(r, before[sight.publish.entered], before[sight.publish.looked], answers.publish).Visible? {
      PolledInALongerPast(before, past, sight.wait.rounds, answers.rounds, r, sight.wait.ending, true, outermost);
    }
  }

  /**
    A whole standalone `send_command`: it opens its own transaction, sends, and leaves the transaction
    before its caller learns anything. A call that is not admitted publishes nothing. Every other report is
    sound, except the labels of a fence and of a late exit, which are characterised separately. A call that
    read its response and can retire its operation reports that response's own outcome.
   */
  method Call(directory: SessionDirectory, r: Request, outermost: bool, answers: CallAnswers)
    returns (called: Called, ghost sight: CallSight)
    requires directory.Valid() && r !in directory.world.log.issued
    modifies directory
    ensures directory.Valid() && directory.Continues()
    ensures directory.Since(sight.entry.locked) && directory.Since(sight.entry.read)
    ensures directory.Since(sight.entry.judged) && directory.Since(sight.entry.swept)
    ensures called.NotAdmitted? ==>
              && directory.world.log.published == old(directory.world).log.published
              && !Admissible(directory.past, sight.entry, false, answers.entry)
    ensures called.Over? ==>
              && sight.send.Some? && SendSeen(directory.past, |old(directory.past)| - 1, sight.send.value)
              && directory.Since(sight.entered) && directory.Since(sight.swept)
              && Concludes(directory.past, sight.send.value, sight.entered, sight.swept, r, called.report, outermost,
                           answers)
              && called.report.request == r && Sound(directory.world, called.report)
              && (called.report.exit == LateExit ==> outermost) && directory.world.worker.None?
              && (called.report.exit == FencedWhileFinishing ==> directory.world.log.executed[r] == 1)
  {
    var admission;
    ghost var entry;
    admission, entry := Begin(directory, false, false, answers.entry);
    sight := CallSight(entry, None, entry.locked, entry.locked);
    if admission.Refused? {
      return NotAdmitted, sight;
    }
    var told;
    ghost var sent, entered, swept;
    told, sent, entered, swept := SendAndLeave(directory, r, outermost, answers);
    called, sight := Over(told), CallSight(entry, Some(sent), entered, swept);
  }

  /** The part of a call inside its own transaction, up to its end. */
  method SendAndLeave(directory: SessionDirectory, r: Request, outermost: bool, answers: CallAnswers)
    returns (told: Report, ghost sent: SendSight, ghost entered: nat, ghost swept: nat)
    requires directory.Valid() && At(directory.world, Holding) && r !in directory.world.log.issued
    requires StagesNothing(directory.world)
    modifies directory
    ensures directory.Valid() && directory.Continues() && directory.Since(entered) && directory.Since(swept)
    ensures SendSeen(directory.past, |old(directory.past)| - 1, sent)
    ensures Concludes(directory.past, sent, entered, swept, r, told, outermost, answers)
    ensures told.request == r && Sound(directory.world, told) && (told.exit == LateExit ==> outermost)
    ensures directory.world.worker.None?
    ensures told.exit == FencedWhileFinishing ==> directory.world.log.executed[r] == 1
  {
    var report, restored;
    report, restored, sent := Send(directory, r, true, outermost, answers.send);
    ghost var past := directory.past;
    told, entered, swept := LeaveCall(directory, r, report, outermost, answers.finish);
    SentInALongerPast(past, directory.past, sent, r, report, restored, outermost, answers.send);
  }

  /** The end of the call's own transaction; a response on its way out is told only now. */
  method LeaveCall(directory: SessionDirectory, r: Request, report: Option<Report>, outermost: bool,
                   answers: FinishAnswers)
    returns (told: Report, ghost entered: nat, ghost swept: nat)
    requires directory.Valid() && BodyDone(directory.world, r, report, true, outermost)
    requires report.Some? ==> Sound(directory.world, report.value)
    modifies directory
    ensures directory.Valid() && directory.Continues() && directory.Since(entered) && directory.Since(swept)
    ensures report.Some? ==> told == report.value
    ensures report.None? && Retirable(directory.past[entered], directory.past[swept], false, answers) ==>
              told == ReturnReport(r, old(directory.world).worker.value.pc.response, outermost, answers.late)
    ensures told.request == r && Sound(directory.world, told) && (told.exit == LateExit ==> outermost)
    ensures directory.world.worker.None?
    ensures told.exit == FencedWhileFinishing ==> directory.world.log.executed[r] == 1
  {
    var result, answered;
    result, answered, entered, swept := FinishTransaction(directory, report.Some?, outermost, answers);
    told := if report.Some? then report.value else answered.value;
    ReportedIsSound(directory, told);
  }
}
