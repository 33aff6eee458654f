/** The active-session marker: writers under one lock, each restoring the previous value when it fails. */
module ActiveMarker {
  import opened Basics

  type Session = nat
  type Worker = nat

  /** The marker file's content, or its absence. */
  type Mark = Option<Session>

  /** The lock's holder: the value it found, the value it means to leave, and whether it is failing. */
  datatype Hold = Hold(owner: Worker, previous: Mark, intended: Mark, failing: bool)

  datatype Commit = Commit(owner: Worker, value: Mark)

  /** The marker, its lock, and the history of writers that left their critical section normally. */
  datatype Marker = Marker(value: Mark, hold: Option<Hold>, initial: Mark, commits: seq<Commit>)

  /** A file write either takes effect, or fails before or after the file is replaced. */
  datatype Write = Done | FailedBefore | FailedAfter

  datatype Step =
    | Acquire(w: Worker)
    | WriteMark(w: Worker, v: Mark, effect: Write)
    | Fail(w: Worker)
    | Leave(w: Worker)
    | Restore(w: Worker, effect: Write)
    | Die(w: Worker)

  predicate Holds(m: Marker, w: Worker, failing: bool) {
    m.hold.Some? && m.hold.value.owner == w && m.hold.value.failing == failing
  }

  predicate Enabled(m: Marker, s: Step) {
    match s
    case Acquire(w) => m.hold.None?
    case WriteMark(w, _, _) => Holds(m, w, false)
    case Fail(w) => Holds(m, w, false)
    case Leave(w) => Holds(m, w, false)
    case Restore(w, _) => Holds(m, w, true)
    case Die(w) => m.hold.Some? && m.hold.value.owner == w
  }

  function Apply(m: Marker, s: Step): Marker
    requires Enabled(m, s)
  {
    match s
    case Acquire(w) => m.(hold := Some(Hold(w, m.value, m.value, false)))
    case WriteMark(w, v, effect) =>
      m.(value := if effect == FailedBefore then m.value else v,
         hold := Some(m.hold.value.(intended := if effect == Done then v else m.hold.value.intended,
                                    failing := effect != Done)))
    case Fail(w) => m.(hold := Some(m.hold.value.(failing := true)))
    case Leave(w) => m.(hold := None, commits := m.commits + [Commit(w, m.hold.value.intended)])
    case Restore(w, effect) =>
      m.(value := if effect == FailedBefore then m.value else m.hold.value.previous, hold := None)
    case Die(w) => m.(hold := None)
  }

  ghost predicate Reaches(m: Marker, steps: seq<Step>, n: Marker)
    decreases steps
  {
    if steps == [] then m == n
    else Enabled(m, steps[0]) && Reaches(Apply(m, steps[0]), steps[1..], n)
  }

  ghost predicate Init(m: Marker) {
    m == Marker(m.initial, None, m.initial, [])
  }

  /** What the last writer that left normally meant the marker to be. */
  function Committed(m: Marker): Mark {
    if m.commits == [] then m.initial else m.commits[|m.commits| - 1].value
  }

  /** Restore writes take effect, and nobody dies between changing the marker and leaving. */
  predicate Recovers(m: Marker, s: Step)
    requires Enabled(m, s)
  {
    match s
    case Restore(_, effect) => effect != FailedBefore || m.value == m.hold.value.previous
    case Die(_) => m.value == m.hold.value.previous
    case _ => true
  }

  ghost predicate AllRecover(m: Marker, steps: seq<Step>)
    decreases steps
  {
    steps == [] || (Enabled(m, steps[0]) && Recovers(m, steps[0]) && AllRecover(Apply(m, steps[0]), steps[1..]))
  }

  /** Between critical sections the marker is the committed one; inside, the holder can still go back to it. */
  ghost predicate Linear(m: Marker) {
    match m.hold
    case None => m.value == Committed(m)
    case Some(h) => h.previous == Committed(m) && (!h.failing ==> m.value == h.intended)
  }

  lemma StepKeepsLinear(m: Marker, s: Step)
    requires Linear(m) && Enabled(m, s)
    ensures Linear(Apply(m, s)) <==> Recovers(m, s)
  {
  }

  /**
   * Any number of processes, any interleaving, any exceptions: whenever the lock is free, the marker is
   * exactly what the last committed writer wrote.
   */
  lemma {:induction false} MarkerLinearizes(m: Marker, steps: seq<Step>, n: Marker)
    requires Linear(m) && Reaches(m, steps, n) && AllRecover(m, steps)
    ensures Linear(n) && (n.hold.None? ==> n.value == Committed(n))
    decreases steps
  {
    if steps == [] {
    } else {
      StepKeepsLinear(m, steps[0]);
      MarkerLinearizes(Apply(m, steps[0]), steps[1..], n);
    }
  }

  lemma {:induction false} CommitsOnlyGrow(m: Marker, steps: seq<Step>, n: Marker)
    requires Reaches(m, steps, n)
    ensures m.commits <= n.commits && m.initial == n.initial
    decreases steps
  {
    if steps == [] {
    } else {
      CommitsOnlyGrow(Apply(m, steps[0]), steps[1..], n);
    }
  }

  /** Steps of one holder between its acquisition and its restore. */
  ghost predicate Within(m: Marker, steps: seq<Step>)
    decreases steps
  {
    || steps == []
    || (&& Enabled(m, steps[0]) && (steps[0].WriteMark? || steps[0].Fail?)
        && Within(Apply(m, steps[0]), steps[1..]))
  }

  lemma {:induction false} HolderRemembers(m: Marker, steps: seq<Step>, n: Marker)
    requires m.hold.Some? && Within(m, steps) && Reaches(m, steps, n)
    ensures n.hold.Some? && n.hold.value.previous == m.hold.value.previous && n.hold.value.owner == m.hold.value.owner
    ensures n.commits == m.commits
    decreases steps
  {
    if steps == [] {
    } else {
      HolderRemembers(Apply(m, steps[0]), steps[1..], n);
    }
  }

  /**
   * A failed activation, however far it got, ends with the exact value its process found, unless the
   * restoring write itself did not take effect and the marker had been changed.
   */
  lemma FailedActivationRestores(m: Marker, w: Worker, steps: seq<Step>, n: Marker, effect: Write)
    requires m.hold.None? && Within(Apply(m, Acquire(w)), steps) && Reaches(Apply(m, Acquire(w)), steps, n)
    requires Enabled(n, Restore(w, effect))
    ensures var after := Apply(n, Restore(w, effect));
      && after.hold.None? && after.commits == m.commits
      && (after.value == m.value <==> Recovers(n, Restore(w, effect)))
  {
    HolderRemembers(Apply(m, Acquire(w)), steps, n);
  }

  /** A process that dies after replacing the marker leaves a value nobody committed. */
  lemma DeathCanLeaveAnUncommittedMark()
    ensures Init(Marker(None, None, None, []))
    ensures exists steps, n :: Reaches(Marker(None, None, None, []), steps, n)
              && n.hold.None? && n.value == Some(5) && Committed(n) == None
  {
    var m := Marker(None, None, None, []);
    var a, b, c := Acquire(1), WriteMark(1, Some(5), Done), Die(1);
    var m1 := Apply(m, a);
    var m2 := Apply(m1, b);
    var n := Apply(m2, c);
    var steps := [a, b, c];
    assert steps[1..] == [b, c] && [b, c][1..] == [c] && [c][1..] == [];
    assert Reaches(n, [], n) && Reaches(m2, [c], n) && Reaches(m1, [b, c], n);
    assert Reaches(m, steps, n);
  }

  // ----- Choosing a marker -----

  datatype Reading = Fine | Unreadable | TimedOut

  /** What a refresh can learn about a session by loading its record and by looking at its process. */
  datatype Candidate = Candidate(
    id: Session,
    ready: bool,
    startupPending: bool,
    startupFailed: bool,
    dead: bool,
    load: Reading,
    look: Reading)

  /** The active session is examined: its record first, its process only if its startup did not fail. */
  predicate ActiveExpires(c: Candidate) {
    c.load == TimedOut || (c.load == Fine && !c.startupFailed && c.look == TimedOut)
  }

  predicate KeepsActive(c: Candidate) {
    c.load == Fine && !c.startupFailed && c.look == Fine && !c.dead
  }

  /** Only then is the process of a listed session looked at. */
  predicate Asked(c: Candidate) {
    c.ready && !c.startupPending && !c.startupFailed
  }

  predicate Eligible(c: Candidate) {
    Asked(c) && c.look == Fine && !c.dead
  }

  /** What a refresh decides: leave the marker, write it, or give up because the deadline expired. */
  datatype Choice = Keep | Change(mark: Mark) | Expire

  /** The first eligible session, unless a look before it takes too long. */
  function FirstEligible(sessions: seq<Candidate>): Choice {
    if sessions == [] then Change(None)
    else if Asked(sessions[0]) && sessions[0].look == TimedOut then Expire
    else if Eligible(sessions[0]) then Change(Some(sessions[0].id))
    else FirstEligible(sessions[1..])
  }

  /** The active session while it lives, else the first eligible one of the listing, else nothing. */
  function Choose(value: Mark, active: Option<Candidate>, listing: Option<seq<Candidate>>): Choice {
    if value.Some? && active.Some? && ActiveExpires(active.value) then Expire
    else if value.Some? && active.Some? && KeepsActive(active.value) then Keep
    else if listing.None? then Expire
    else FirstEligible(listing.value)
  }

  /** A session is chosen exactly as the first of its kind: nothing eligible and no expiry comes before it. */
  lemma {:induction false} ChosenIsFirst(sessions: seq<Candidate>, i: nat)
    requires i < |sessions| && Asked(sessions[i]) && sessions[i].look != Unreadable
    requires sessions[i].look == TimedOut || !sessions[i].dead
    requires forall j :: 0 <= j < i ==> !Eligible(sessions[j]) && !(Asked(sessions[j]) && sessions[j].look == TimedOut)
    ensures FirstEligible(sessions) == if sessions[i].look == TimedOut then Expire else Change(Some(sessions[i].id))
  {
    if i == 0 {
    } else {
      forall j | 0 <= j < i - 1
        ensures !Eligible(sessions[1..][j]) && !(Asked(sessions[1..][j]) && sessions[1..][j].look == TimedOut)
      {
        assert sessions[1..][j] == sessions[j + 1];
      }
      ChosenIsFirst(sessions[1..], i - 1);
    }
  }

  /** What the walk over the listing means for each of its ends. */
  lemma {:induction false} WalkExplained(sessions: seq<Candidate>)
    ensures FirstEligible(sessions) != Keep
    ensures FirstEligible(sessions) == Change(None) ==> forall c :: c in sessions ==> !Runs(c)
    ensures FirstEligible(sessions).Change? && FirstEligible(sessions).mark.Some? ==>
              exists i :: 0 <= i < |sessions| && IsFirstRunning(sessions, i, FirstEligible(sessions).mark.value)
    ensures FirstEligible(sessions).Expire? ==>
              exists c :: c in sessions && c.look == TimedOut && c.ready && !c.startupPending && !c.startupFailed
  {
    if sessions == [] {
    } else {
      WalkExplained(sessions[1..]);
      var rest := FirstEligible(sessions[1..]);
      if FirstEligible(sessions) == rest {
        if rest.Change? && rest.mark.Some? && !Eligible(sessions[0]) {
          var i :| 0 <= i < |sessions[1..]| && IsFirstRunning(sessions[1..], i, rest.mark.value);
          assert sessions[1..][i] == sessions[i + 1];
          assert forall j :: 0 < j < i + 1 ==> sessions[j] == sessions[1..][j - 1];
          assert IsFirstRunning(sessions, i + 1, rest.mark.value);
        }
      }
      assert sessions[0] in sessions;
      if Eligible(sessions[0]) {
        assert IsFirstRunning(sessions, 0, sessions[0].id);
      }
    }
  }

  /** A session whose startup is over and whose process could be looked at and lives. */
  predicate Runs(c: Candidate) {
    c.ready && !c.startupPending && !c.startupFailed && c.look == Fine && !c.dead
  }

  /** The first running session of the listing carries this id. */
  ghost predicate IsFirstRunning(sessions: seq<Candidate>, i: nat, id: Session)
    requires i < |sessions|
  {
    Runs(sessions[i]) && sessions[i].id == id && forall j :: 0 <= j < i ==> !Runs(sessions[j])
  }

  /**
    What a refresh does to the marker: it stays exactly for an active session that could be read and is not known
    to be dead, it names a session only if that is the first running one of the listing, it is cleared only when
    none runs, and the refresh gives up only on a look that took too long or a listing that could not be read.
   */
  lemma ChoiceExplained(value: Mark, active: Option<Candidate>, listing: Option<seq<Candidate>>)
    ensures var choice := Choose(value, active, listing);
            && (choice == Keep <==>
                  && value.Some? && active.Some? && active.value.load == Fine
                  && !active.value.startupFailed && active.value.look == Fine && !active.value.dead)
            && (choice == Change(None) ==> listing.Some? && forall c :: c in listing.value ==> !Runs(c))
            && (choice.Change? && choice.mark.Some? ==>
                  && listing.Some?
                  && exists i :: 0 <= i < |listing.value| && IsFirstRunning(listing.value, i, choice.mark.value))
            && (choice == Expire ==>
                  || (active.Some? && (active.value.load == TimedOut || active.value.look == TimedOut))
                  || listing.None?
                  || exists c :: c in listing.value && c.look == TimedOut)
  {
    if listing.Some? {
      WalkExplained(listing.value);
    }
  }

  /**
    How a critical section that decided `choice` ends: the new marker is committed, or nothing is committed and
    the marker found before is back, unless the restoring write did not take effect either.
   */
  ghost predicate Ended(m: Marker, before: Marker, w: Worker, choice: Choice, effect: Write, restore: Write) {
    && m.hold.None? && m.initial == before.initial
    && match choice
       case Keep => Linear(m) && m.value == before.value && m.commits == before.commits + [Commit(w, before.value)]
       case Expire => Linear(m) && m.value == before.value && m.commits == before.commits
       case Change(v) =>
         if effect == Done then Linear(m) && m.value == v && m.commits == before.commits + [Commit(w, v)]
         else
           && m.commits == before.commits
           && (m.value == before.value <==> !(effect == FailedAfter && restore == FailedBefore && v != before.value))
           && (Linear(m) <==> m.value == before.value)
  }

  class MarkerFile {
    var marker: Marker

    constructor (initial: Mark)
      ensures Linear(marker) && marker == Marker(initial, None, initial, [])
    {
      marker := Marker(initial, None, initial, []);
    }

    /** `_active_marker` around one write: commits it, or restores what was there. */
    method SetActiveSession(w: Worker, v: Mark, effect: Write, restore: Write)
      requires Linear(marker) && marker.hold.None?
      modifies this
      ensures Ended(marker, old(marker), w, Change(v), effect, restore)
    {
      marker := Apply(marker, Acquire(w));
      ChangeHeld(w, v, effect, restore);
    }

    /** The write inside the critical section, and what `_active_marker` does with its exception. */
    method ChangeHeld(w: Worker, v: Mark, effect: Write, restore: Write)
      requires Linear(marker) && Holds(marker, w, false) && marker.value == marker.hold.value.previous
      modifies this
      ensures Ended(marker, old(marker).(hold := None), w, Change(v), effect, restore)
    {
      marker := Apply(marker, WriteMark(w, v, effect));
      if effect == Done {
        marker := Apply(marker, Leave(w));
      } else {
        marker := Apply(marker, Restore(w, restore));
      }
    }

    /**
      `_refresh_active_session`. `active` is the record the marker names, if there is one; without a `listing`
      reading the sessions failed or took too long.
     */
    method Refresh(w: Worker, active: Option<Candidate>, listing: Option<seq<Candidate>>, effect: Write, restore: Write)
      requires Linear(marker) && marker.hold.None?
      modifies this
      ensures Ended(marker, old(marker), w, Choose(old(marker).value, active, listing), effect, restore)
    {
      marker := Apply(marker, Acquire(w));
      var expired := false;
      if marker.value.Some? && active.Some? {
        if KeepsActive(active.value) {
          marker := Apply(marker, Leave(w));
          return;
        }
        expired := ActiveExpires(active.value);
      }
      if expired || listing.None? {
        marker := Apply(Apply(marker, Fail(w)), Restore(w, restore));
        return;
      }
      var sessions := listing.value;
      assert sessions[0..] == sessions;
      for i := 0 to |sessions|
        invariant marker == Apply(old(marker), Acquire(w))
        invariant FirstEligible(sessions) == FirstEligible(sessions[i..])
      {
        if Asked(sessions[i]) && sessions[i].look == TimedOut {
          marker := Apply(Apply(marker, Fail(w)), Restore(w, restore));
          return;
        }
        if Eligible(sessions[i]) {
          ChangeHeld(w, Some(sessions[i].id), effect, restore);
          return;
        }
        assert sessions[i..][1..] == sessions[i + 1..];
      }
      ChangeHeld(w, None, effect, restore);
    }
  }
}
