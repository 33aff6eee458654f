/** `SessionManager.stop`: fence the session, terminate its process group, and only then retire it. */
module Stop {
  import opened Basics
  import opened BridgeReply
  import opened ProcessState
  import opened TransactionWorld
  import opened TransactionProtocol
  import opened TransactionFrames
  import opened TransactionSafety
  import opened SessionTransactions
  import Termination

  datatype StopOutcome =
    | Rejected                             // a negative grace period
    | NotFenced
    | Unidentified                         // no usable session record
    | Unconfirmed(error: Termination.Result)
    | NotFinished
    | Finished(exit: Termination.Result)

  /** Verified termination; the fence is still there when it is over. */
  method TerminateBehindFence(directory: SessionDirectory, control: Termination.ProcessControl, grace: real)
    returns (exit: Termination.Result)
    requires directory.Valid() && Recovering(directory.world) && grace >= 0.0
    modifies directory, control
    ensures directory.Valid() && directory.Continues() && Recovering(directory.world)
    ensures exit != Termination.InvalidArguments && Termination.Explained(control.trace, exit) && control.Honest()
  {
    exit := control.TerminateOwnedProcess(grace, 1.0);
    WorkersInterfere(directory);
  }

  /** What the system answers during a stop. */
  datatype StopAnswers = StopAnswers(fence: Fault, known: bool, retire: RetireAnswers)

  /**
    Whatever workers, bridge and outside programs do meanwhile, the session is retired only after the last look
    at its process found the whole group gone, and then nothing that did not run yet ever will. Every failure
    after the fence leaves the session fenced, and has its cause: the state lock is looked at in the state
    `locked`, the cleanup starts in `swept`.
   */
  method StopSession(directory: SessionDirectory, control: Termination.ProcessControl, grace: real,
                     answers: StopAnswers)
    returns (outcome: StopOutcome, ghost locked: nat, ghost swept: nat)
    requires directory.Valid()
    modifies directory, control
    ensures directory.Valid() && directory.Continues() && directory.Since(locked) && directory.Since(swept)
    ensures outcome == Rejected <==> grace < 0.0
    ensures outcome == Rejected ==> directory.world == old(directory.world)
    ensures outcome == NotFenced <==>
              && grace >= 0.0
              && !(&& old(directory.world).recovery.None? && old(directory.world).guard == Free
                   && !old(directory.world).removed && answers.fence == Clean)
    ensures outcome == Unidentified ==> !answers.known
    ensures !answers.known ==> outcome.Rejected? || outcome.NotFenced? || outcome.Unidentified?
    ensures outcome.Rejected? || outcome.NotFenced? || outcome.Unidentified? ==> control.trace == old(control.trace)
    ensures outcome == NotFinished ==>
              !(directory.past[locked].guard == Free && Endable(directory.past[swept], answers.retire))
    ensures IsFenced(old(directory.world)) || !(outcome.Rejected? || outcome.NotFenced?) ==> IsFenced(directory.world)
    ensures outcome.Finished? ==>
              && IsRetired(directory.world)
              && (outcome.exit == Termination.AlreadyExited || outcome.exit == Termination.Stopped)
              && Termination.Explained(control.trace, outcome.exit)
    ensures outcome.Finished? || outcome.NotFinished? ==>
              Termination.EndsWith(control.trace, State.Dead)
              && control.trace[|control.trace| - 1].probe.group == NoSuchProcess
    ensures outcome.Unconfirmed? ==>
              outcome.error.Raised? && Termination.Explained(control.trace, outcome.error)
  {
    locked, swept := |directory.past| - 1, |directory.past| - 1;
    if grace < 0.0 {
      return Rejected, locked, swept;
    }
    var fenced := Fence(directory, answers.fence);
    if !fenced {
      return NotFenced, locked, swept;
    }
    if !answers.known {
      directory.TakeRecovery(RecoveryGone);
      return Unidentified, locked, swept;
    }
    outcome, locked, swept := TerminateAndRetire(directory, control, grace, answers.retire);
  }

  /** The part of `stop` behind the fence, for a session whose record is known. */
  method TerminateAndRetire(directory: SessionDirectory, control: Termination.ProcessControl, grace: real,
                            answers: RetireAnswers)
    returns (outcome: StopOutcome, ghost locked: nat, ghost swept: nat)
    requires directory.Valid() && Recovering(directory.world) && grace >= 0.0
    modifies directory, control
    ensures directory.Valid() && directory.Continues() && directory.Since(locked) && directory.Since(swept)
    ensures outcome.Unconfirmed? || outcome.NotFinished? || outcome.Finished?
    ensures IsFenced(directory.world)
    ensures outcome == NotFinished ==>
              !(directory.past[locked].guard == Free && Endable(directory.past[swept], answers))
    ensures outcome.Finished? ==>
              && IsRetired(directory.world)
              && (outcome.exit == Termination.AlreadyExited || outcome.exit == Termination.Stopped)
              && Termination.Explained(control.trace, outcome.exit)
    ensures outcome.Finished? || outcome.NotFinished? ==>
              Termination.EndsWith(control.trace, State.Dead)
              && control.trace[|control.trace| - 1].probe.group == NoSuchProcess
    ensures outcome.Unconfirmed? ==>
              outcome.error.Raised? && Termination.Explained(control.trace, outcome.error)
  {
    var exit := TerminateBehindFence(directory, control, grace);
    locked, swept := |directory.past| - 1, |directory.past| - 1;
    if exit.Raised? {
      directory.TakeRecovery(RecoveryGone);
      return Unconfirmed(exit), locked, swept;
    }
    Termination.ReturnMeansGroupGone(control.platform, control.self, control.pid, control.identity, control.trace);
    var retired;
    retired, locked, swept := Retirement(directory, answers);
    outcome := if retired then Finished(exit) else NotFinished;
  }
}
