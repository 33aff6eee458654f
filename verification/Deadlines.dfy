/** One deadline shared by nested operation scopes, and the settle loop that polls under it. */
module Deadlines {
  import opened Basics
  import opened BridgeReply
  import opened Pacing

  datatype Phase = Acquisition | Settle | OtherPhase

  /** The object every nested scope edits in place. */
  class Deadline {
    var expiresAt: real
    var phase: Phase
    var request: Option<Request>
    var outcome: Outcome

    constructor (expiresAt: real)
      ensures this.expiresAt == expiresAt && phase == Acquisition && request == None && outcome == NotExecuted
    {
      this.expiresAt, phase, request, outcome := expiresAt, Acquisition, None, NotExecuted;
    }
  }

  datatype Entered = Nested | Outermost | Expired | InvalidTimeout

  datatype Waited = Settled(frame: int) | TimedOut | PollFailed | BadTimeout

  /** The earliest of some instants. */
  function Least(limits: seq<real>): real
    requires limits != []
  {
    if |limits| == 1 then limits[0] else Min(Least(limits[..|limits| - 1]), limits[|limits| - 1])
  }

  lemma {:induction false} LeastIsLowerBound(limits: seq<real>, i: nat)
    requires i < |limits|
    ensures Least(limits) <= limits[i]
  {
    if |limits| > 1 && i < |limits| - 1 {
      LeastIsLowerBound(limits[..|limits| - 1], i);
    } else {
    }
  }

  lemma {:induction false} LeastIsOneOfThem(limits: seq<real>)
    requires limits != []
    ensures Least(limits) in limits
  {
    if |limits| <= 1 {
    } else {
      LeastIsOneOfThem(limits[..|limits| - 1]);
    }
  }

  /** Entering another scope can only bring the deadline forward. */
  lemma LeastShrinks(limits: seq<real>, limit: real)
    requires limits != []
    ensures Least(limits + [limit]) == Min(Least(limits), limit) <= Least(limits)
  {
    assert (limits + [limit])[..|limits|] == limits;
  }

  class Operation {
    var now: real
    var current: Deadline?

    /** Start plus duration of every scope entered under the current deadline. */
    ghost var limits: seq<real>

    /** When each requested sleep was to end. */
    ghost var wakeups: seq<real>

    constructor (now: real)
      ensures Valid() && fresh(this) && this.now == now && current == null && wakeups == []
    {
      this.now, current, limits, wakeups := now, null, [], [];
    }

    /** The deadline in force is the earliest limit of all scopes entered so far, open or closed. */
    ghost predicate Valid()
      reads this, current
    {
      if current == null then limits == [] else limits != [] && current.expiresAt == Least(limits)
    }

    /** Time passes. */
    method ReadClock() returns (t: real)
      requires Valid()
      modifies this`now
      ensures Valid() && t == now >= old(now)
    {
      var delay: real :| delay >= 0.0;
      now := now + delay;
      t := now;
    }

    /** `Deadline.remaining`: what is left, or a timeout. */
    method Remaining() returns (left: Option<real>)
      requires Valid() && current != null
      modifies this`now
      ensures Valid() && now >= old(now)
      ensures left == if now < current.expiresAt then Some(current.expiresAt - now) else None
    {
      var t := ReadClock();
      left := if current.expiresAt - t <= 0.0 then None else Some(current.expiresAt - t);
    }

    /** Entering `operation_timeout`: an inner scope may only bring the shared deadline forward. */
    method Enter(timeout: real) returns (r: Entered, ghost limit: real)
      requires Valid()
      modifies this`now, this`current, this`limits, current
      ensures Valid() && now >= old(now) && old(now) + timeout <= limit <= now + timeout
      ensures r == InvalidTimeout <==> timeout <= 0.0
      ensures r == InvalidTimeout ==> current == old(current) && limits == old(limits)
      ensures r == Nested ==> current == old(current) != null && limits == old(limits) + [limit]
      ensures r == Outermost ==> old(current) == null && current != null && fresh(current) && limits == [limit]
      ensures r == Expired <==>
                timeout > 0.0 && now >= if old(current) == null then limit else Min(old(current.expiresAt), limit)
      ensures r == Expired && old(current) != null ==> current == old(current) && limits == old(limits) + [limit]
      ensures r == Expired && old(current) == null ==> current == null
      ensures r == Nested || r == Outermost ==> now < current.expiresAt
      ensures old(current) != null ==> current.expiresAt <= old(current.expiresAt)
    {
      var started := ReadClock();
      limit := started + timeout;
      if timeout <= 0.0 {
        return InvalidTimeout, limit;
      }
      if current != null {
        LeastShrinks(limits, limit);
        current.expiresAt := Min(current.expiresAt, started + timeout);
        limits := limits + [limit];
        var left := Remaining();
        return if left.Some? then Nested else Expired, limit;
      }
      current := new Deadline(started + timeout);
      limits := [limit];
      var left := Remaining();
      if left == None {
        current, limits := null, [];
        return Expired, limit;
      }
      return Outermost, limit;
    }

    /** Leaving the scope normally: one more check; only the outermost scope ends the deadline. */
    method Leave(entered: Entered) returns (inTime: bool, ghost told: Outcome)
      requires Valid() && current != null && (entered == Nested || entered == Outermost)
      modifies this`now, this`current, this`limits, current
      ensures Valid() && now >= old(now)
      ensures inTime <==> now < old(current.expiresAt)
      ensures entered == Nested ==>
        current == old(current) && limits == old(limits) && current.expiresAt == old(current.expiresAt)
      ensures entered == Outermost ==> current == null
      ensures told == if entered == Outermost then Completed else old(current.outcome)
    {
      if entered == Outermost {
        current.outcome := Completed;
      }
      var left := Remaining();
      inTime, told := left.Some?, current.outcome;
      if entered == Outermost {
        current, limits := null, [];
      }
    }

    /** `Deadline.begin`. */
    method Begin(phase: Phase) returns (inTime: bool)
      requires Valid() && current != null
      modifies this`now, current
      ensures Valid() && now >= old(now) && current.expiresAt == old(current.expiresAt)
      ensures current.phase == phase && current.request == None && current.outcome == NotExecuted
      ensures inTime <==> now < current.expiresAt
    {
      current.request, current.outcome, current.phase := None, NotExecuted, phase;
      var left := Remaining();
      inTime := left.Some?;
    }

    /**
      One poll: a command with its own nested scope, given what remains. It may take any time; `answer` is the
      frame it reports, or none when it fails. Its answer counts exactly when the deadline is not over by then.
      Because its budget is what remained a moment before, it never moves the deadline.
     */
    method PollFrame(remaining: real, answer: Option<int>) returns (frame: Option<int>)
      requires Valid() && current != null && 0.0 < remaining && current.expiresAt <= now + remaining
      modifies this`now, this`current, this`limits, current
      ensures Valid() && now >= old(now) && current == old(current) && current.expiresAt == old(current.expiresAt)
      ensures frame == if now < current.expiresAt then answer else None
    {
      var entered;
      ghost var limit;
      entered, limit := Enter(remaining);
      if entered != Nested {
        return None;
      }
      LeastShrinks(old(limits), limit);
      frame := answer;
      var t := ReadClock();
      var inTime;
      ghost var told;
      inTime, told := Leave(Nested);
      if !inTime {
        frame := None;
      }
    }

    /** `time.sleep` never returns early. */
    method Sleep(duration: real)
      requires Valid() && duration >= 0.0
      modifies this`now, this`wakeups
      ensures Valid() && now >= old(now) + duration
      ensures wakeups == old(wakeups) + [old(now) + duration]
    {
      wakeups := wakeups + [now + duration];
      var late: real :| late >= 0.0;
      now := now + duration + late;
    }

    /**
      `_wait_for_frame` inside an operation: it settles on the first poll that reports the target, unless a poll
      fails or the deadline passes before that, and no sleep is ever asked to end after the deadline, which itself
      never moves past either limit. `answers(i)` is what poll `i` reports.
     */
    method WaitForFrame(target: int, timeout: real, answers: nat -> Option<int>) returns (r: Waited, polls: nat)
      requires Valid() && current != null
      modifies this, current
      ensures Valid() && current == old(current) && now >= old(now)
      ensures current.expiresAt <= old(current.expiresAt)
      ensures r != BadTimeout ==> current.expiresAt <= now + timeout
      ensures r == BadTimeout <==> timeout <= 0.0
      ensures r == TimedOut ==> now >= current.expiresAt
      ensures r == PollFailed ==> polls > 0 && (answers(polls - 1) == None || now >= current.expiresAt)
      ensures r.Settled? ==>
                polls > 0 && answers(polls - 1) == Some(r.frame) && r.frame >= target && now < current.expiresAt
      ensures forall i :: 0 <= i < polls - 1 ==> answers(i).Some? && answers(i).value < target
      ensures old(wakeups) <= wakeups
      ensures forall i :: |old(wakeups)| <= i < |wakeups| ==> wakeups[i] <= current.expiresAt <= old(current.expiresAt)
      ensures polls <= Steps(old(current.expiresAt) - old(now)) + 1
    {
      polls := 0;
      var entered;
      ghost var limit;
      entered, limit := Enter(timeout);
      if entered == InvalidTimeout {
        return BadTimeout, polls;
      }
      LeastShrinks(old(limits), limit);
      if entered == Expired {
        return TimedOut, polls;
      }
      ghost var expiry := current.expiresAt;
      StepsMonotone(expiry - now, old(current.expiresAt) - old(now));
      while true
        invariant Valid() && current == old(current) && now >= old(now)
        invariant current.expiresAt == expiry <= Min(old(current.expiresAt), now + timeout)
        invariant forall i :: 0 <= i < polls ==> answers(i).Some? && answers(i).value < target
        invariant old(wakeups) <= wakeups
        invariant forall i :: |old(wakeups)| <= i < |wakeups| ==> wakeups[i] <= expiry
        invariant polls + Steps(expiry - now) <= Steps(old(current.expiresAt) - old(now))
        decreases Steps(expiry - now)
      {
        var end, polled := Turn(target, answers(polls));
        polls := if polled then polls + 1 else polls;
        if end.Some? {
          return end.value, polls;
        }
      }
    }

    /**
      One turn of the settle loop: begin a phase, poll with what remains, and either settle or sleep. Without an
      end it has slept, and the next turn has at least one step less.
     */
    method Turn(target: int, answer: Option<int>) returns (end: Option<Waited>, polled: bool)
      requires Valid() && current != null
      modifies this, current
      ensures Valid() && current == old(current) && now >= old(now) && current.expiresAt == old(current.expiresAt)
      ensures polled || end == Some(TimedOut)
      ensures end == None ==>
                && polled && answer.Some? && answer.value < target
                && |wakeups| == |old(wakeups)| + 1 && old(wakeups) <= wakeups
                && wakeups[|old(wakeups)|] <= current.expiresAt
                && Steps(current.expiresAt - now) < Steps(current.expiresAt - old(now))
      ensures end.Some? ==>
                && wakeups == old(wakeups)
                && match end.value
                   case Settled(frame) => answer == Some(frame) && frame >= target && now < current.expiresAt
                   case TimedOut => now >= current.expiresAt
                   case PollFailed => answer == None || now >= current.expiresAt
                   case BadTimeout => false
    {
      polled := false;
      var inTime := Begin(Settle);
      if !inTime {
        return Some(TimedOut), polled;
      }
      var left := Remaining();
      if left == None {
        return Some(TimedOut), polled;
      }
      polled := true;
      var frame := PollFrame(left.value, answer);
      if frame == None {
        return Some(PollFailed), polled;
      }
      left := Remaining();
      if left == None {
        return Some(TimedOut), polled;
      }
      if frame.value >= target {
        var last;
        ghost var told;
        last, told := Leave(Nested);
        return Some(if last then Settled(frame.value) else TimedOut), polled;
      }
      left := Remaining();
      if left == None {
        return Some(TimedOut), polled;
      }
      var pause := Min(0.05, left.value);
      Sleep(pause);
      SleepingUsesAStep(left.value, current.expiresAt - now, pause);
      StepsMonotone(left.value, current.expiresAt - old(now));
      end := None;
    }
  }
}
