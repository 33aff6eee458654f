/** Key presses and scheduled releases in the bridge, and when a tap is over for the host. */
module TapSettle {
  import opened Basics

  type Key = int

  datatype Command =
    | TapKey(key: Option<Key>, duration: real)
    | SetKeys(keys: seq<Key>)
    | ClearAll
    | ClearKeys(keys: seq<Key>)
    | Screenshot
    | OtherCommand

  /** The bridge's frame counter, the emulator's pressed keys and the scheduled releases. */
  datatype Pad = Pad(frame: nat, held: set<Key>, releaseAt: map<Key, real>)

  function Due(pad: Pad): set<Key> {
    set k | k in pad.releaseAt && pad.frame as real >= pad.releaseAt[k]
  }

  function Released(pad: Pad): Pad {
    pad.(held := pad.held - Due(pad), releaseAt := pad.releaseAt - Due(pad))
  }

  function Elements(keys: seq<Key>): set<Key> {
    set k | k in keys
  }

  /** The shortest tap lasts one frame. */
  function Duration(d: real): real {
    if d < 1.0 then 1.0 else d
  }

  function Handled(pad: Pad, c: Command): Pad {
    match c
    case TapKey(Some(k), d) =>
      pad.(held := pad.held + {k}, releaseAt := pad.releaseAt[k := pad.frame as real + Duration(d)])
    case SetKeys(keys) => pad.(held := Elements(keys), releaseAt := map[])
    case ClearAll => pad.(held := {}, releaseAt := map[])
    case ClearKeys(keys) => pad.(held := pad.held - Elements(keys), releaseAt := pad.releaseAt - Elements(keys))
    case _ => pad
  }

  /** One frame callback: count, release what is due, then run at most one command. */
  function Frame(pad: Pad, c: Option<Command>): Pad {
    var next := Released(pad.(frame := pad.frame + 1));
    if c.Some? then Handled(next, c.value) else next
  }

  function Run(pad: Pad, cs: seq<Option<Command>>): Pad {
    if cs == [] then pad else Frame(Run(pad, cs[..|cs| - 1]), cs[|cs| - 1])
  }

  lemma HasElement(s: set<Key>)
    requires s != {}
    ensures exists k :: k in s
  {
    assert (forall k :: k !in s) ==> s == {};
  }

  class Bridge {
    var frame: nat
    var held: set<Key>
    var releaseAt: map<Key, real>

    constructor ()
      ensures State() == Pad(0, {}, map[])
    {
      frame, held, releaseAt := 0, {}, map[];
    }

    function State(): Pad
      reads this
    {
      Pad(frame, held, releaseAt)
    }

    /** Walks the schedule in any order and drops entries while walking. */
    method ApplyKeyReleases()
      modifies this`held, this`releaseAt
      ensures State() == Released(old(State()))
    {
      var todo := releaseAt.Keys;
      while todo != {}
        invariant todo <= old(releaseAt).Keys
        invariant releaseAt == old(releaseAt) - (Due(old(State())) - todo)
        invariant held == old(held) - (Due(old(State())) - todo)
      {
        HasElement(todo);
        var key :| key in todo;
        assert key in releaseAt && releaseAt[key] == old(releaseAt)[key];
        if frame as real >= releaseAt[key] {
          held := held - {key};
          releaseAt := releaseAt - {key};
        }
        todo := todo - {key};
      }
      assert Due(old(State())) - {} == Due(old(State()));
    }

    method HandleCommand(c: Command) returns (ok: bool)
      modifies this`held, this`releaseAt
      ensures State() == Handled(old(State()), c)
      ensures ok <==> !(c.TapKey? && c.key == None)
    {
      ok := true;
      match c
      case TapKey(None, _) => ok := false;
      case TapKey(Some(key), d) =>
        var duration := d;
        if duration < 1.0 {
          duration := 1.0;
        }
        held := held + {key};
        releaseAt := releaseAt[key := frame as real + duration];
      case SetKeys(keys) =>
        held := set k | k in keys;
        releaseAt := map[];
      case ClearAll =>
        held := {};
        releaseAt := map[];
      case ClearKeys(keys) =>
        for i := 0 to |keys|
          invariant held == old(held) - Elements(keys[..i])
          invariant releaseAt == old(releaseAt) - Elements(keys[..i])
        {
          held := held - {keys[i]};
          releaseAt := releaseAt - {keys[i]};
          assert Elements(keys[..i + 1]) == Elements(keys[..i]) + {keys[i]};
        }
        assert keys[..|keys|] == keys;
      case _ =>
    }

    method FrameCallback(c: Option<Command>)
      modifies this
      ensures State() == Frame(old(State()), c)
    {
      frame := frame + 1;
      ApplyKeyReleases();
      if c.Some? {
        var ok := HandleCommand(c.value);
      }
    }
  }

  // ----- Over whole runs -----

  /** Every scheduled key is pressed, and no release is overdue. */
  ghost predicate Tidy(pad: Pad) {
    forall k :: k in pad.releaseAt ==> k in pad.held && pad.frame as real < pad.releaseAt[k]
  }

  /** Whatever key commands arrive, at every frame the schedule is for pressed keys and still ahead. */
  lemma {:induction false} RunKeepsTidy(pad: Pad, cs: seq<Option<Command>>)
    requires Tidy(pad)
    ensures Tidy(Run(pad, cs)) && Run(pad, cs).frame == pad.frame + |cs|
  {
    if cs == [] {
    } else {
      RunKeepsTidy(pad, cs[..|cs| - 1]);
    }
  }

  /** Commands that neither press, release nor reschedule `key`. */
  predicate LeavesAlone(c: Option<Command>, key: Key) {
    match c
    case Some(TapKey(k, _)) => k != Some(key)
    case Some(SetKeys(_)) => false
    case Some(ClearAll) => false
    case Some(ClearKeys(keys)) => key !in keys
    case _ => true
  }

  /** Between a tap and its release the key is pressed; from the release on it is not. */
  ghost predicate Tapped(pad: Pad, key: Key, until: real) {
    if pad.frame as real < until
    then key in pad.held && key in pad.releaseAt && pad.releaseAt[key] == until
    else key !in pad.held && key !in pad.releaseAt
  }

  lemma {:induction false} TapRuns(pad: Pad, key: Key, until: real, cs: seq<Option<Command>>)
    requires Tapped(pad, key, until) && pad.frame as real < until
    requires forall i :: 0 <= i < |cs| ==> LeavesAlone(cs[i], key)
    ensures Tapped(Run(pad, cs), key, until) && Run(pad, cs).frame == pad.frame + |cs|
  {
    if cs == [] {
    } else {
      TapRuns(pad, key, until, cs[..|cs| - 1]);
    }
  }

  /**
   * A tap of duration d in frame f holds its key in exactly the frames before f + max(1, d), as long as no
   * other command touches the key.
   */
  lemma TapHoldsExactly(before: Pad, key: Key, d: real, cs: seq<Option<Command>>)
    requires forall i :: 0 <= i < |cs| ==> LeavesAlone(cs[i], key)
    ensures var tapped := Frame(before, Some(TapKey(Some(key), d)));
      var after := Run(tapped, cs);
      && after.frame == tapped.frame + |cs|
      && (key in after.held <==> |cs| as real < if d < 1.0 then 1.0 else d)
  {
    var tapped := Frame(before, Some(TapKey(Some(key), d)));
    TapRuns(tapped, key, tapped.frame as real + Duration(d), cs);
  }

  /** A key without a scheduled release stays as it is while nothing touches it. */
  lemma {:induction false} UnscheduledStays(pad: Pad, key: Key, cs: seq<Option<Command>>)
    requires key !in pad.releaseAt && forall i :: 0 <= i < |cs| ==> LeavesAlone(cs[i], key)
    ensures key !in Run(pad, cs).releaseAt && (key in Run(pad, cs).held <==> key in pad.held)
  {
    if cs == [] {
    } else {
      UnscheduledStays(pad, key, cs[..|cs| - 1]);
    }
  }

  /** Keys that were set stay pressed, and all others released, until another command touches them. */
  lemma SetKeysHoldExactly(before: Pad, keys: seq<Key>, key: Key, cs: seq<Option<Command>>)
    requires forall i :: 0 <= i < |cs| ==> LeavesAlone(cs[i], key)
    ensures key in Run(Frame(before, Some(SetKeys(keys))), cs).held <==> key in keys
  {
    UnscheduledStays(Frame(before, Some(SetKeys(keys))), key, cs);
  }

  /** A cleared key stays released until another command touches it, whatever was scheduled for it. */
  lemma ClearedStaysReleased(before: Pad, clear: Command, key: Key, cs: seq<Option<Command>>)
    requires clear == ClearAll || (clear.ClearKeys? && key in clear.keys)
    requires forall i :: 0 <= i < |cs| ==> LeavesAlone(cs[i], key)
    ensures key !in Run(Frame(before, Some(clear)), cs).held
  {
    UnscheduledStays(Frame(before, Some(clear)), key, cs);
  }

  /** Two pads that agree on everything about one key. */
  ghost predicate AgreeOn(p: Pad, q: Pad, key: Key) {
    && p.frame == q.frame && (key in p.held <==> key in q.held)
    && (key in p.releaseAt <==> key in q.releaseAt)
    && (key in p.releaseAt ==> p.releaseAt[key] == q.releaseAt[key])
  }

  lemma ReleasesAgree(p: Pad, q: Pad, key: Key)
    requires AgreeOn(p, q, key)
    ensures AgreeOn(Released(p), Released(q), key)
  { }

  lemma CommandsAgree(p: Pad, q: Pad, key: Key, c: Command)
    requires AgreeOn(p, q, key)
    ensures AgreeOn(Handled(p, c), Handled(q, c), key)
  { }

  lemma FramesAgree(p: Pad, q: Pad, key: Key, c: Option<Command>)
    requires AgreeOn(p, q, key)
    ensures AgreeOn(Frame(p, c), Frame(q, c), key)
  {
    var u, v := p.(frame := p.frame + 1), q.(frame := q.frame + 1);
    ReleasesAgree(u, v, key);
    if c.Some? {
      CommandsAgree(Released(u), Released(v), key, c.value);
    }
  }

  lemma {:induction false} RunsAgree(p: Pad, q: Pad, key: Key, cs: seq<Option<Command>>)
    requires AgreeOn(p, q, key)
    ensures AgreeOn(Run(p, cs), Run(q, cs), key)
  {
    if cs == [] {
    } else {
      RunsAgree(p, q, key, cs[..|cs| - 1]);
      var u, v := Run(p, cs[..|cs| - 1]), Run(q, cs[..|cs| - 1]);
      FramesAgree(u, v, key, cs[|cs| - 1]);
    }
  }

  /**
   * Clearing or tapping some keys is invisible to every other key: along any run it is pressed and released in
   * the same frames as if the command had not been sent.
   */
  lemma OtherKeysAreNotTouched(before: Pad, c: Command, key: Key, cs: seq<Option<Command>>)
    requires (c.ClearKeys? && key !in c.keys) || (c.TapKey? && c.key != Some(key))
    ensures AgreeOn(Run(Frame(before, Some(c)), cs), Run(Frame(before, None), cs), key)
  {
    RunsAgree(Frame(before, Some(c)), Frame(before, None), key, cs);
  }

  /** The frame the host waits for, given the response's frame and duration. */
  function SettleTarget(frame: nat, duration: real, wait: nat): int
    requires duration >= 1.0
  {
    frame + duration.Floor + wait
  }

  /**
   * The screenshot of a tap never shows the tapped key pressed: once any poll has reported the target frame,
   * every later callback, and the screenshot needs one of its own, runs with the key released. This holds
   * for fractional durations too, although the host truncates them.
   */
  lemma ScreenshotSeesReleasedKey(before: Pad, key: Key, d: real, wait: nat, polls: seq<Option<Command>>,
                                  later: seq<Option<Command>>)
    requires forall i :: 0 <= i < |polls| ==> LeavesAlone(polls[i], key)
    requires forall i :: 0 <= i < |later| ==> LeavesAlone(later[i], key)
    requires var tapped := Frame(before, Some(TapKey(Some(key), d)));
      Run(tapped, polls).frame >= SettleTarget(tapped.frame, Duration(d), wait)
    ensures var tapped := Frame(before, Some(TapKey(Some(key), d)));
      key !in Run(tapped, polls + later + [Some(Screenshot)]).held
  {
    var tapped := Frame(before, Some(TapKey(Some(key), d)));
    TapHoldsExactly(before, key, d, polls);
    TapHoldsExactly(before, key, d, polls + later + [Some(Screenshot)]);
  }

  /** When the poll itself reports, the key is released if and only if the whole duration has passed. */
  lemma ReleasedAtPollExactly(before: Pad, key: Key, d: real, wait: nat, polls: seq<Option<Command>>)
    requires forall i :: 0 <= i < |polls| ==> LeavesAlone(polls[i], key)
    requires |polls| == Duration(d).Floor + wait
    ensures var tapped := Frame(before, Some(TapKey(Some(key), d)));
      && Run(tapped, polls).frame == SettleTarget(tapped.frame, Duration(d), wait)
      && (key !in Run(tapped, polls).held <==> wait > 0 || Duration(d) == Duration(d).Floor as real)
  {
    TapHoldsExactly(before, key, d, polls);
  }

  /** A tap of one and a half frames is still pressed in the frame the host takes for settled. */
  lemma FractionalTapStillHeldAtPoll()
    ensures var tapped := Frame(Pad(0, {}, map[]), Some(TapKey(Some(0), 1.5)));
      var polled := Run(tapped, [Some(OtherCommand)]);
      polled.frame == SettleTarget(tapped.frame, 1.5, 0) && 0 in polled.held
  {
    ReleasedAtPollExactly(Pad(0, {}, map[]), 0, 1.5, 0, [Some(OtherCommand)]);
  }
}
