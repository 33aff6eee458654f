/** `terminate_owned_process`: TERM, perhaps KILL, against any sequence of observations and signal errors. */
module Termination {
  import opened Basics
  import opened Pacing
  import opened ProcessState

  datatype Signal = TERM | KILL

  datatype SignalResult = Delivered | SignalRefused | SignalFailed

  datatype Event =
    | Observed(probe: Probe, state: State)
    | Signalled(signal: Signal, result: SignalResult)
    | Slept(duration: real)

  datatype Stage = Inspect | AtTerm | AtKill

  /** What an error says: a look that did not find the process alive, a failed signal, or no exit in time. */
  datatype Failure = CheckFailed(first: State) | SignalError(result: SignalResult) | NotConfirmed

  datatype Result =
    | AlreadyExited
    | Stopped
    | Raised(failure: Failure, code: State, stage: Stage, outcome: Outcome)
    | InvalidArguments

  /** What may clear up by itself, and is waited for. */
  predicate Transient(state: State) {
    state == PermissionDenied || state == TerminationUnconfirmed
  }

  /** The code of an error by what failed and what was seen last. */
  function CodeOf(failure: Failure, last: State): State {
    match failure
    case CheckFailed(_) => last
    case SignalError(result) =>
      if last == IdentityMismatch then last
      else if result == SignalRefused then PermissionDenied else TerminationUnconfirmed
    case NotConfirmed => if last == Alive then TerminationUnconfirmed else last
  }

  /** The signals attempted before an error of this stage. */
  function Attempted(stage: Stage, failure: Failure): seq<Signal> {
    match stage
    case Inspect => []
    case AtTerm => if failure.CheckFailed? then [] else [TERM]
    case AtKill => if failure.CheckFailed? then [TERM] else [TERM, KILL]
  }

  /** The signals attempted, in order. */
  function Signals(trace: seq<Event>): seq<Signal> {
    if trace == [] then []
    else
      var last := trace[|trace| - 1];
      Signals(trace[..|trace| - 1]) + if last.Signalled? then [last.signal] else []
  }

  /** The sleep requested in all. */
  function TotalSleep(trace: seq<Event>): real {
    if trace == [] then 0.0
    else
      var last := trace[|trace| - 1];
      TotalSleep(trace[..|trace| - 1]) + if last.Slept? then last.duration else 0.0
  }

  function Observations(trace: seq<Event>): nat {
    if trace == [] then 0
    else Observations(trace[..|trace| - 1]) + if trace[|trace| - 1].Observed? then 1 else 0
  }

  /** Every signal comes right after a look at the process that found it alive. */
  ghost predicate Disciplined(trace: seq<Event>) {
    forall i :: 0 <= i < |trace| && trace[i].Signalled? ==>
      i > 0 && trace[i - 1].Observed? && trace[i - 1].state == Alive
  }

  ghost predicate EndsWith(trace: seq<Event>, state: State) {
    trace != [] && trace[|trace| - 1].Observed? && trace[|trace| - 1].state == state
  }

  /**
    The event at `k` is an ownership check that saw `first`: the very first look, or one right after a live
    look. No signal follows, and more looks follow exactly if what it saw may clear up.
   */
  ghost predicate Checked(trace: seq<Event>, k: nat, first: State) {
    && k < |trace| && trace[k].Observed? && trace[k].state == first
    && (k > 0 ==> trace[k - 1].Observed? && trace[k - 1].state == Alive)
    && (forall i :: k <= i < |trace| ==> !trace[i].Signalled?)
    && (k + 1 < |trace| <==> first == PermissionDenied || first == TerminationUnconfirmed)
  }

  /** The event at `k` is the last signal, and it failed. */
  ghost predicate Failed(trace: seq<Event>, k: nat, result: SignalResult) {
    && k < |trace| && trace[k].Signalled? && trace[k].result == result != Delivered
    && (forall i :: k < i < |trace| ==> !trace[i].Signalled?)
  }

  /** What a result says about the looks and signals of its call. */
  ghost predicate Explained(trace: seq<Event>, r: Result) {
    match r
    case InvalidArguments => trace == []
    case AlreadyExited => EndsWith(trace, Dead) && Signals(trace) == []
    case Stopped => EndsWith(trace, Dead) && Signals(trace) != []
    case Raised(failure, code, stage, outcome) =>
      && trace != [] && trace[|trace| - 1].Observed? && trace[|trace| - 1].state != Dead
      && code == CodeOf(failure, trace[|trace| - 1].state)
      && Signals(trace) == Attempted(stage, failure)
      && outcome == (if Attempted(stage, failure) == [] then NotExecuted else Unknown)
      && (stage == Inspect ==> failure.CheckFailed?)
      && (failure.CheckFailed? ==>
            && failure.first != Alive
            && exists k: nat :: Checked(trace, k, failure.first) && (stage == Inspect <==> k == 0))
      && (failure.SignalError? ==> exists k: nat :: Failed(trace, k, failure.result))
      && (failure.NotConfirmed? && stage == AtTerm ==> exists k: nat :: NotAliveAfterTerm(trace, k))
  }

  /** A look after the only signal, a TERM, that did not find the process alive. */
  ghost predicate NotAliveAfterTerm(trace: seq<Event>, k: nat) {
    && 0 < k < |trace| && trace[k].Observed? && trace[k].state != Alive
    && Signals(trace[..k]) == [TERM]
  }

  /** Nothing is given up before its time: `elapsed` is how long the call took until it raised. */
  predicate TimeGiven(r: Result, last: State, elapsed: real, grace: real, confirmation: real)
    requires r.Raised?
  {
    last == IdentityMismatch
    || match r.failure
       case CheckFailed(first) => Transient(first) ==> elapsed >= confirmation
       case SignalError(_) => elapsed >= confirmation
       case NotConfirmed =>
         && elapsed >= grace
         && (r.stage == AtKill || last == Alive || Transient(last) ==> elapsed >= grace + confirmation)
  }

  /** A process that ignores TERM is killed: live looks and delivered signals lead to both signals. */
  lemma IgnoredTermIsFollowedByKill(trace: seq<Event>, r: Result)
    requires Explained(trace, r) && r != InvalidArguments
    requires forall i :: 0 <= i < |trace| && trace[i].Observed? ==> trace[i].state == Alive
    requires forall i :: 0 <= i < |trace| && trace[i].Signalled? ==> trace[i].result == Delivered
    ensures Signals(trace) == [TERM, KILL]
    ensures r == Raised(NotConfirmed, TerminationUnconfirmed, AtKill, Unknown)
  { }

  /** A failed check after the signal at `k` saw something else than a live process. */
  lemma CheckSawIt(trace: seq<Event>, r: Result, k: nat)
    requires Explained(trace, r) && r.Raised? && r.failure.CheckFailed? && k < |trace| && trace[k].Signalled?
    ensures exists j :: k < j < |trace| && trace[j].Observed? && trace[j].state != Alive
  {
    var j: nat :| Checked(trace, j, r.failure.first);
    assert j > k;
  }

  lemma EarlierSignalsAreFewer(trace: seq<Event>, j: nat, k: nat)
    requires j <= k < |trace| && trace[k].Signalled?
    ensures |Signals(trace[..j])| < |Signals(trace[..k + 1])|
  {
    SignalIsCounted(trace[..k + 1], k);
    SignalsGrow(trace[..k], j);
    assert trace[..k + 1][..k] == trace[..k] && trace[..k][..j] == trace[..j];
  }

  /** An exit that was not confirmed after the TERM at `k` means a look that did not find the process alive. */
  lemma WaitSawIt(trace: seq<Event>, r: Result, k: nat)
    requires Explained(trace, r) && r.Raised? && r.failure.NotConfirmed? && r.stage == AtTerm
    requires k < |trace| && trace[k].Signalled? && Signals(trace[..k + 1]) == [TERM]
    ensures exists j :: k < j < |trace| && trace[j].Observed? && trace[j].state != Alive
  {
    var j: nat :| NotAliveAfterTerm(trace, j);
    if j <= k {
      EarlierSignalsAreFewer(trace, j, k);
    }
  }

  lemma FailedTermIsTheOne(trace: seq<Event>, r: Result, k: nat)
    requires Explained(trace, r) && r.Raised? && r.failure.SignalError? && r.stage == AtTerm
    requires k < |trace| && trace[k].Signalled?
    ensures trace[k].result != Delivered
  {
    var j: nat :| Failed(trace, j, r.failure.result);
    OnlySignal(trace, k, j);
  }

  /** Once a TERM was delivered and every look after it was live, the call went on to a KILL. */
  lemma LiveAfterTermGoesOn(trace: seq<Event>, r: Result, k: nat)
    requires Explained(trace, r) && k < |trace| && trace[k] == Signalled(TERM, Delivered)
    requires Signals(trace[..k + 1]) == [TERM]
    requires forall i :: k < i < |trace| && trace[i].Observed? ==> trace[i].state == Alive
    ensures r.Raised? && r.stage == AtKill && Signals(trace) == [TERM, KILL]
  {
    SignalIsCounted(trace, k);
    if r.Raised? && r.failure.CheckFailed? {
      CheckSawIt(trace, r, k);
    } else if r.Raised? && r.stage == AtTerm && r.failure.NotConfirmed? {
      WaitSawIt(trace, r, k);
    } else if r.Raised? && r.stage == AtTerm {
      FailedTermIsTheOne(trace, r, k);
    }
  }

  lemma OnlySignal(trace: seq<Event>, k: nat, j: nat)
    requires Signals(trace) == [TERM] && k < |trace| && j < |trace| && trace[k].Signalled? && trace[j].Signalled?
    ensures k == j
  {
    SignalIsCounted(trace, k);
    SignalIsCounted(trace, j);
    if k < j {
      EarlierSignalCountsLess(trace, k, j);
    } else if j < k {
      EarlierSignalCountsLess(trace, j, k);
    }
  }

  /**
    An error whose code is `alive` comes exactly from an ownership check that first saw a permission problem
    or unconfirmed absence, and whose wait then ended with the process alive; whatever was signalled before.
   */
  lemma AliveExactlyWhenItClearedUp(trace: seq<Event>, r: Result)
    requires Explained(trace, r) && r.Raised?
    ensures r.code == Alive <==>
              && r.failure.CheckFailed? && Transient(r.failure.first) && EndsWith(trace, Alive)
              && exists k: nat :: k + 1 < |trace| && Checked(trace, k, r.failure.first)
    ensures r.code != Dead && (r.code == IdentityMismatch <==> EndsWith(trace, IdentityMismatch))
  {
    if r.failure.CheckFailed? {
      var k: nat :| Checked(trace, k, r.failure.first);
      assert k + 1 < |trace| || trace[|trace| - 1].state == r.failure.first;
    }
  }

  /** The looks got the system's answers in order. */
  ghost predicate Follows(trace: seq<Event>, answers: nat -> Probe) {
    trace == []
    || var before, last := trace[..|trace| - 1], trace[|trace| - 1];
       Follows(before, answers) && (last.Observed? ==> last.probe == answers(Observations(before)))
  }

  /** Every observation is what `process_state` concludes from its probe. */
  ghost predicate HonestTrace(platform: Platform, self: Self, pid: int, identity: Option<Identity>, trace: seq<Event>) {
    forall i :: 0 <= i < |trace| && trace[i].Observed? ==>
      trace[i].state == StateOf(platform, self, pid, identity, true, trace[i].probe)
  }

  /** A signal is only ever sent right after the recorded process was seen running as leader of its own group. */
  lemma SignalsHitOnlyTheRecordedProcess(platform: Platform, self: Self, pid: int, identity: Option<Identity>,
                                         trace: seq<Event>, i: nat)
    requires HonestTrace(platform, self, pid, identity, trace) && Disciplined(trace)
    requires i < |trace| && trace[i].Signalled?
    ensures i > 0 && trace[i - 1].Observed?
    ensures VerifiedAlive(platform, self, pid, identity, trace[i - 1].probe)
  {
    AliveExactlyWhenVerified(platform, self, pid, identity, true, trace[i - 1].probe);
  }

  /** A normal return means that the last look found the whole group gone. */
  lemma ReturnMeansGroupGone(platform: Platform, self: Self, pid: int, identity: Option<Identity>, trace: seq<Event>)
    requires HonestTrace(platform, self, pid, identity, trace) && EndsWith(trace, Dead)
    ensures trace[|trace| - 1].probe.group == NoSuchProcess
  {
    DeadMeansGroupGone(platform, self, pid, identity, true, trace[|trace| - 1].probe);
  }

  lemma {:induction false} SignalIsCounted(trace: seq<Event>, i: nat)
    requires i < |trace| && trace[i].Signalled?
    ensures |Signals(trace[..i])| < |Signals(trace)|
    ensures Signals(trace)[|Signals(trace[..i])|] == trace[i].signal
  {
    var before := trace[..|trace| - 1];
    if i < |before| {
      SignalIsCounted(before, i);
      assert before[..i] == trace[..i];
    } else {
    }
  }

  lemma {:induction false} SignalsGrow(trace: seq<Event>, i: nat)
    requires i <= |trace|
    ensures Signals(trace[..i]) <= Signals(trace)
  {
    if i == |trace| {
      assert trace[..i] == trace;
    } else {
      var before := trace[..|trace| - 1];
      SignalsGrow(before, i);
      assert before[..i] == trace[..i];
    }
  }

  /** Any two signals of a call are a TERM and then a KILL. */
  lemma TwoSignalsAreTermThenKill(trace: seq<Event>, i: nat, j: nat)
    requires Signals(trace) <= DISCIPLINE && i < j < |trace| && trace[i].Signalled? && trace[j].Signalled?
    ensures trace[i].signal == TERM && trace[j].signal == KILL
  {
    EarlierSignalCountsLess(trace, i, j);
    SignalIsCounted(trace, i);
    SignalIsCounted(trace, j);
  }

  lemma EarlierSignalCountsLess(trace: seq<Event>, i: nat, j: nat)
    requires i < j < |trace| && trace[i].Signalled?
    ensures |Signals(trace[..i])| < |Signals(trace[..j])|
  {
    SignalIsCounted(trace[..j], i);
    assert trace[..j][..i] == trace[..i];
  }

  /** A KILL is never the first signal. */
  lemma KillComesAfterTerm(trace: seq<Event>, j: nat)
    requires Signals(trace) <= DISCIPLINE && j < |trace| && trace[j].Signalled? && trace[j].signal == KILL
    ensures Signals(trace[..j]) == [TERM]
  {
    SignalIsCounted(trace, j);
    SignalsGrow(trace, j);
  }

  const DISCIPLINE: seq<Signal> := [TERM, KILL]

  lemma {:induction false} QuietSignals(before: seq<Event>, after: seq<Event>)
    requires before <= after && forall i :: |before| <= i < |after| ==> !after[i].Signalled?
    ensures Signals(after) == Signals(before)
  {
    if |before| < |after| {
      QuietSignals(before, after[..|after| - 1]);
    } else {
      assert before == after;
    }
  }

  lemma {:induction false} FollowsFirst(trace: seq<Event>, answers: nat -> Probe)
    requires Follows(trace, answers) && trace != [] && trace[0].Observed?
    ensures trace[0].probe == answers(0)
  {
    var before := trace[..|trace| - 1];
    if before == [] {
    } else {
      FollowsFirst(before, answers);
    }
  }

  class ProcessControl {
    const platform: Platform
    const self: Self
    const pid: int
    const identity: Option<Identity>
    /** What the system answers to the first, second, ... look of a call. */
    const answers: nat -> Probe
    var looks: nat
    var now: real
    ghost var trace: seq<Event>

    constructor (platform: Platform, self: Self, pid: int, identity: Option<Identity>, answers: nat -> Probe,
                 now: real)
      ensures this.platform == platform && this.self == self && this.pid == pid && this.identity == identity
      ensures this.answers == answers && this.now == now && trace == []
    {
      this.platform, this.self, this.pid, this.identity := platform, self, pid, identity;
      this.answers, this.looks, this.now := answers, 0, now;
      trace := [];
    }

    ghost predicate Honest()
      reads this
    {
      && HonestTrace(platform, self, pid, identity, trace)
      && Follows(trace, answers) && looks == Observations(trace)
    }

    /** One `process_state` call: the system's next answers, after any delay. */
    method Observe() returns (state: State)
      requires Honest()
      modifies this
      ensures now >= old(now) && Honest()
      ensures |trace| == |old(trace)| + 1 && trace[..|old(trace)|] == old(trace) && EndsWith(trace, state)
    {
      var probe := answers(looks);
      var delay: real :| delay >= 0.0;
      state := StateOf(platform, self, pid, identity, true, probe);
      now, looks := now + delay, looks + 1;
      trace := trace + [Observed(probe, state)];
    }

    /** `os.killpg`: the signal is delivered, refused or fails for another reason. */
    method KillGroup(signal: Signal) returns (result: SignalResult)
      requires Honest()
      modifies this
      ensures now >= old(now) && Honest()
      ensures trace == old(trace) + [Signalled(signal, result)]
    {
      result := *;
      var delay: real :| delay >= 0.0;
      now := now + delay;
      trace := trace + [Signalled(signal, result)];
    }

    /** `time.sleep` never returns early. */
    method Sleep(duration: real)
      requires Honest()
      modifies this
      ensures now >= old(now) + duration && Honest()
      ensures trace == old(trace) + [Slept(duration)]
    {
      var late: real :| late >= 0.0;
      now := now + duration + late;
      trace := trace + [Slept(duration)];
    }

    /** A part of a call that only looks and sleeps, never past `deadline`. */
    twostate predicate Quiet(deadline: real)
      reads this
    {
      && old(trace) <= trace
      && (forall i :: |old(trace)| <= i < |trace| ==> !trace[i].Signalled?)
      && old(now) <= now
      && TotalSleep(trace) - TotalSleep(old(trace)) <= now - old(now)
      && (TotalSleep(trace) == TotalSleep(old(trace))
          || TotalSleep(trace) - TotalSleep(old(trace)) <= deadline - old(now))
    }

    /** `_wait_for_exit`: looks at least once, and stops at death, a mismatch or the deadline. */
    method WaitForExit(deadline: real) returns (state: State)
      requires Honest()
      modifies this
      ensures Honest() && Quiet(deadline) && EndsWith(trace, state) && |trace| > |old(trace)|
      ensures state != Dead && state != IdentityMismatch ==> now >= deadline
      ensures Observations(trace) - Observations(old(trace)) <= Steps(deadline - old(now)) + 1
    {
      while true
        invariant Honest() && Quiet(deadline)
        invariant Observations(trace) - Observations(old(trace)) + Steps(deadline - now) <= Steps(deadline - old(now))
        decreases Steps(deadline - now)
      {
        label L:
        state := Observe();
        assert Steps(deadline - now) <= Steps(deadline - old@L(now));
        if state == Dead || state == IdentityMismatch {
          return;
        }
        var remaining := deadline - now;
        if remaining <= 0.0 {
          return;
        }
        var pause := Min(0.05, remaining);
        Sleep(pause);
        SleepingUsesAStep(remaining, deadline - now, pause);
      }
    }

    /** What holds of every call so far: which signals, each after a live look, and no sleep beyond the budget. */
    ghost predicate Proper(started: real, budget: real, signals: nat)
      requires signals <= 2
      reads this
    {
      && Honest() && Disciplined(trace)
      && Signals(trace) == DISCIPLINE[..signals]
      && TotalSleep(trace) <= budget && TotalSleep(trace) <= now - started
    }

    /** Waiting within the budget keeps everything but the last observation. */
    method Wait(deadline: real, ghost started: real, ghost budget: real, ghost signals: nat) returns (state: State)
      requires signals <= 2 && Proper(started, budget, signals) && deadline <= started + budget
      modifies this
      ensures Proper(started, budget, signals) && EndsWith(trace, state) && old(trace) < trace
      ensures forall i :: |old(trace)| <= i < |trace| ==> !trace[i].Signalled?
      ensures now >= old(now) && (state != Dead && state != IdentityMismatch ==> now >= deadline)
    {
      state := WaitForExit(deadline);
      QuietSignals(old(trace), trace);
    }

    /** A fresh ownership check: what may clear up is waited for. */
    method Check(deadline: real, confirmation: real, ghost started: real, ghost budget: real, ghost signals: nat)
      returns (first: State, state: State)
      requires signals <= 2 && Proper(started, budget, signals) && deadline <= started + budget
      requires trace == [] || EndsWith(trace, Alive)
      modifies this
      ensures Proper(started, budget, signals) && EndsWith(trace, state) && old(trace) < trace
      ensures Checked(trace, |old(trace)|, first) && (!Transient(first) ==> state == first)
      ensures now >= old(now)
      ensures Transient(first) && state != Dead && state != IdentityMismatch ==>
                now >= Min(deadline, old(now) + confirmation)
    {
      first := Observe();
      state := first;
      QuietSignals(old(trace), trace);
      if Transient(first) {
        label L:
        state := WaitForExit(Min(deadline, now + confirmation));
        QuietSignals(old@L(trace), trace);
      }
    }

    /** A signal right after a live look keeps the discipline. */
    method Attempt(signal: Signal, ghost started: real, ghost budget: real, ghost signals: nat)
      returns (result: SignalResult)
      requires signals < 2 && Proper(started, budget, signals) && EndsWith(trace, Alive)
      requires signal == DISCIPLINE[signals]
      modifies this
      ensures Proper(started, budget, signals + 1) && now >= old(now)
      ensures trace == old(trace) + [Signalled(signal, result)]
    {
      result := KillGroup(signal);
    }

    /** One signal: sent, or failed and then waited for. `None` means that it was sent. */
    method SendSignal(signal: Signal, stage: Stage, deadline: real, confirmation: real, ghost started: real,
                      ghost budget: real, ghost signals: nat)
      returns (r: Option<Result>)
      requires signals < 2 && Proper(started, budget, signals) && EndsWith(trace, Alive)
      requires signal == DISCIPLINE[signals] && stage == [AtTerm, AtKill][signals] && deadline <= started + budget
      modifies this
      ensures Proper(started, budget, signals + 1) && old(trace) < trace
      ensures r.Some? ==> Explained(trace, r.value)
      ensures now >= old(now)
      ensures r.Some? && r.value.Raised? ==>
                && r.value.failure.SignalError?
                && (EndsWith(trace, IdentityMismatch) || now >= Min(deadline, old(now) + confirmation))
      ensures r.None? ==> trace == old(trace) + [Signalled(signal, Delivered)]
    {
      var result := Attempt(signal, started, budget, signals);
      if result == Delivered {
        return None;
      }
      var state := Wait(Min(deadline, now + confirmation), started, budget, signals + 1);
      if state == Dead {
        return Some(Stopped);
      }
      var code := if result == SignalRefused then PermissionDenied else TerminationUnconfirmed;
      if state == IdentityMismatch {
        code := state;
      }
      assert Failed(trace, |old(trace)|, result);
      r := Some(Raised(SignalError(result), code, stage, Unknown));
    }

    /** The wait after a signal that was sent. `None` means that a KILL comes next. */
    method Confirm(signal: Signal, stage: Stage, deadline: real, duration: real, ghost started: real,
                   ghost budget: real, ghost signals: nat)
      returns (r: Option<Result>)
      requires signals < 2 && Proper(started, budget, signals + 1) && trace != []
      requires signal == DISCIPLINE[signals] && stage == [AtTerm, AtKill][signals] && deadline <= started + budget
      modifies this
      ensures Proper(started, budget, signals + 1) && old(trace) < trace
      ensures if r.Some? then Explained(trace, r.value) else signal == TERM && EndsWith(trace, Alive)
      ensures now >= old(now) && (r.None? ==> now >= Min(deadline, old(now) + duration))
      ensures r.Some? && r.value.Raised? ==>
                && r.value.failure.NotConfirmed?
                && (EndsWith(trace, IdentityMismatch)
                    || (&& now >= Min(deadline, old(now) + duration)
                        && (signal == TERM && (EndsWith(trace, Alive) || Transient(r.value.code)) ==> now >= deadline)))
    {
      ghost var sent := trace;
      var state := Wait(Min(deadline, now + duration), started, budget, signals + 1);
      ghost var k := |trace| - 1;
      if state == Dead {
        return Some(Stopped);
      }
      if signal == TERM && state == Alive {
        return None;
      }
      if signal == TERM && Transient(state) {
        state := Wait(deadline, started, budget, signals + 1);
        if state == Dead {
          return Some(Stopped);
        }
      }
      if signal == TERM {
        QuietSignals(sent, trace[..k]);
        assert NotAliveAfterTerm(trace, k);
      }
      r := Some(Raised(NotConfirmed, if state == Alive then TerminationUnconfirmed else state, stage, Unknown));
    }

    /** One turn of the loop: a fresh ownership check, the signal, the wait. `None` means that a KILL comes next. */
    method Turn(i: nat, deadline: real, grace: real, confirmation: real, ghost started: real, ghost budget: real)
      returns (over: Option<Result>)
      requires i < 2 && Proper(started, budget, i) && EndsWith(trace, Alive) && deadline == started + budget
      requires grace >= 0.0 && confirmation >= 0.0 && budget == grace + confirmation && now >= started
      requires i > 0 ==> now >= started + grace
      modifies this
      ensures old(trace) < trace && now >= old(now)
      ensures exists signals: nat :: signals <= i + 1 && Proper(started, budget, signals)
      ensures over.None? ==>
                i == 0 && Proper(started, budget, 1) && EndsWith(trace, Alive) && now >= started + grace
      ensures over.Some? ==> Explained(trace, over.value)
      ensures over.Some? && over.value.Raised? ==>
                TimeGiven(over.value, trace[|trace| - 1].state, now - started, grace, confirmation)
    {
      var stage := if i == 0 then AtTerm else AtKill;
      var first, state := Check(deadline, confirmation, started, budget, i);
      if state == Dead {
        return Some(if i > 0 then Stopped else AlreadyExited);
      }
      if first != Alive {
        assert Checked(trace, |old(trace)|, first);
        return Some(Raised(CheckFailed(first), state, stage, if i > 0 then Unknown else NotExecuted));
      }
      over := SignalAndWait(i, deadline, grace, confirmation, started, budget);
    }

    /** The signal of a turn and the wait for it. */
    method SignalAndWait(i: nat, deadline: real, grace: real, confirmation: real, ghost started: real,
                         ghost budget: real)
      returns (over: Option<Result>)
      requires i < 2 && Proper(started, budget, i) && EndsWith(trace, Alive) && deadline == started + budget
      requires grace >= 0.0 && confirmation >= 0.0 && budget == grace + confirmation && now >= started
      requires i > 0 ==> now >= started + grace
      modifies this
      ensures old(trace) < trace && now >= old(now) && Proper(started, budget, i + 1)
      ensures over.None? ==> i == 0 && EndsWith(trace, Alive) && now >= started + grace
      ensures over.Some? ==> Explained(trace, over.value)
      ensures over.Some? && over.value.Raised? ==>
                TimeGiven(over.value, trace[|trace| - 1].state, now - started, grace, confirmation)
    {
      var signal, stage, duration := if i == 0 then TERM else KILL, if i == 0 then AtTerm else AtKill,
        if i == 0 then grace else confirmation;
      over := SendSignal(signal, stage, deadline, confirmation, started, budget, i);
      if over.None? {
        over := Confirm(signal, stage, deadline, duration, started, budget, i);
      }
    }

    /** The signals of a call, each after a fresh ownership check. */
    method SignalGroup(deadline: real, grace: real, confirmation: real, ghost started: real, ghost budget: real)
      returns (r: Result)
      requires Proper(started, budget, 0) && EndsWith(trace, Alive) && deadline == started + budget
      requires grace >= 0.0 && confirmation >= 0.0 && budget == grace + confirmation && now >= started
      modifies this
      ensures Explained(trace, r) && old(trace) < trace
      ensures Signals(trace) == DISCIPLINE ==> now >= started + grace
      ensures r.Raised? ==> TimeGiven(r, trace[|trace| - 1].state, now - started, grace, confirmation)
      ensures exists signals: nat :: signals <= 2 && Proper(started, budget, signals)
    {
      for i := 0 to 2
        invariant i <= 1 && Proper(started, budget, i) && EndsWith(trace, Alive) && old(trace) <= trace
        invariant now >= started && (i > 0 ==> now >= started + grace)
      {
        var over := Turn(i, deadline, grace, confirmation, started, budget);
        if over.Some? {
          return over.value;
        }
      }
      assert false;
    }

    method TerminateOwnedProcess(grace: real, confirmation: real) returns (r: Result)
      modifies this
      ensures r == InvalidArguments <==> grace < 0.0 || confirmation < 0.0
      ensures r == InvalidArguments ==> now == old(now)
      ensures Honest() && Disciplined(trace) && Signals(trace) <= DISCIPLINE
      ensures r != InvalidArguments ==> TotalSleep(trace) <= grace + confirmation
      ensures Explained(trace, r)
      ensures Signals(trace) == DISCIPLINE ==> now >= old(now) + grace
      ensures r.Raised? ==> TimeGiven(r, trace[|trace| - 1].state, now - old(now), grace, confirmation)
      ensures r == AlreadyExited || r == Stopped <==> EndsWith(trace, Dead)
      ensures r != InvalidArguments ==> trace != [] && trace[0].Observed? && trace[0].probe == answers(0)
      ensures r != InvalidArguments && trace[0].state != Alive ==>
                Signals(trace) == [] && (r == AlreadyExited || (r.Raised? && r.stage == Inspect))
    {
      trace, looks := [], 0;
      if grace < 0.0 || confirmation < 0.0 {
        return InvalidArguments;
      }
      ghost var started, budget := now, grace + confirmation;
      var deadline := now + grace + confirmation;
      var first, state := Check(deadline, confirmation, started, budget, 0);
      FollowsFirst(trace, answers);
      if state == Dead {
        return AlreadyExited;
      }
      if first != Alive {
        assert Checked(trace, 0, first);
        return Raised(CheckFailed(first), state, Inspect, NotExecuted);
      }
      r := SignalGroup(deadline, grace, confirmation, started, budget);
    }
  }

  // ----- An error whose code is `alive` -----

  const OWN := Identity(7, 7, 7, 0, true)

  /** The first look is refused, every later one finds the recorded process running. */
  function RefusedOnce(look: nat): Probe {
    Probe(if look == 0 then Refused else Inspected(OWN, false), Present, Present, NotAChild, LifetimeUnreadable)
  }

  lemma {:induction false} FirstIsCounted(trace: seq<Event>)
    requires trace != [] ==> trace[0].Observed?
    ensures trace != [] ==> Observations(trace) > 0
  {
    if |trace| <= 1 {
    } else {
      FirstIsCounted(trace[..|trace| - 1]);
    }
  }

  /** The permission problem clears up without an exit, and the call raises the code `alive`. */
  method AliveCanBeRaised(grace: real, confirmation: real, now: real) returns (r: Result)
    requires grace >= 0.0 && confirmation >= 0.0
    ensures r == Raised(CheckFailed(PermissionDenied), Alive, Inspect, NotExecuted)
  {
    var control := new ProcessControl(Linux, Self(1, 1), 7, Some(OWN), RefusedOnce, now);
    r := control.TerminateOwnedProcess(grace, confirmation);
    ghost var before := control.trace[..|control.trace| - 1];
    FirstIsCounted(before);
  }
}
