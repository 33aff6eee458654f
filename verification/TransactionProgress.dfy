/** What can still happen: which requests can be answered, and which abandoned operations can be reclaimed. */
module TransactionProgress {
  import opened Basics
  import opened BridgeReply
  import opened TransactionWorld
  import opened TransactionProtocol
  import opened TransactionInvariant
  import opened TransactionSafety

  // ----- The ownership check -----

  datatype Check = Mine | AtFence | Lost

  /** `_owned_operation`: the generation first, then the fence, then the operation. */
  function OwnershipCheck(w: World): Check
    requires w.worker.Some?
  {
    if w.journal.None? || w.journal.value.generation != w.worker.value.generation then Lost
    else if w.journal.value.state != Ready then AtFence
    else if w.journal.value.operation.None? || w.journal.value.operation.value.id != w.worker.value.id then Lost
    else Mine
  }

  /** The guards of the worker's steps are the outcomes of that check. */
  lemma ChecksAreGuards(w: World)
    requires w.worker.Some?
    ensures Owned(w) <==> OwnershipCheck(w) == Mine
    ensures w.guard == Free ==> (SeesFence(w) <==> OwnershipCheck(w) == AtFence)
  { }

  // ----- A request that can run can be answered -----

  /** In some continuation `response.json` says that this request's handler returned. */
  ghost predicate MayBeAnswered(w: World, r: Request) {
    exists steps, v ::
      Reaches(w, steps, v) && v.response.Some? && v.response.value.id == Some(r)
      && HostOutcome(v.response.value) == Completed
  }

  lemma Earlier(w: World, s: Step, r: Request)
    requires Enabled(w, s) && MayBeAnswered(Apply(w, s), r)
    ensures MayBeAnswered(w, r)
  {
    var steps, v :|
      Reaches(Apply(w, s), steps, v) && v.response.Some? && v.response.value.id == Some(r)
      && HostOutcome(v.response.value) == Completed;
    Follow(w, s, steps, v);
  }

  /** The handler of this request is running: it can return, and its reply can be written. */
  lemma ExecutingIsAnswered(w: World, r: Request)
    requires w.bridge.Executing? && w.bridge.command.request == Some(r)
    ensures MayBeAnswered(w, r)
  {
    var u := Apply(w, OfBridge(Return(Returned, true, true)));
    var v := Apply(u, OfBridge(Respond(true)));
    assert Reaches(v, [], v);
    Follow(u, OfBridge(Respond(true)), [], v);
    Earlier(w, OfBridge(Return(Returned, true, true)), r);
  }

  lemma ClaimedIsAnswered(w: World, r: Request)
    requires w.bridge.Claimed? && w.bridge.command.request == Some(r)
    ensures MayBeAnswered(w, r)
  {
    ExecutingIsAnswered(Apply(w, OfBridge(Start)), r);
    Earlier(w, OfBridge(Start), r);
  }

  lemma IdleAnswers(w: World, r: Request)
    requires w.bridge.Idle? && Waiting(w) == Some(r)
    ensures MayBeAnswered(w, r)
  {
    ClaimedIsAnswered(Apply(w, OfBridge(Claim)), r);
    Earlier(w, OfBridge(Claim), r);
  }

  lemma ReplyingAnswers(w: World, r: Request)
    requires w.bridge.Replying? && Waiting(w) == Some(r)
    ensures MayBeAnswered(w, r)
  {
    IdleAnswers(Apply(w, OfBridge(Respond(true))), r);
    Earlier(w, OfBridge(Respond(true)), r);
  }

  lemma BusyAnswersNext(w: World, r: Request)
    requires w.bridge.Executing? && Waiting(w) == Some(r)
    ensures MayBeAnswered(w, r)
  {
    var s := OfBridge(Return(Returned, true, true));
    ReplyingAnswers(Apply(w, s), r);
    Earlier(w, s, r);
  }

  lemma ClaimedAnswersNext(w: World, r: Request)
    requires w.bridge.Claimed? && w.renames && Waiting(w) == Some(r)
    ensures MayBeAnswered(w, r)
  {
    BusyAnswersNext(Apply(w, OfBridge(Start)), r);
    Earlier(w, OfBridge(Start), r);
  }

  /**
    A published request that did not run yet can still be answered if and only if nothing bars it: the bridge can
    claim it, run it and write the response that its worker is waiting for.
   */
  lemma AnsweredExactlyUnlessBarred(w: World, r: Request)
    requires Inv(w) && Reports(w) && r in w.log.published && !w.bridge.NotStarted? && w.log.executed[r] == 0
    ensures MayBeAnswered(w, r) <==> !Barred(w, r)
  {
    if Barred(w, r) {
      forall steps, v | Reaches(w, steps, v)
        ensures !(v.response.Some? && v.response.value.id == Some(r))
      {
        RunStaysBarred(w, steps, v, r);
        RunKeeps(w, steps, v);
      }
    } else if w.bridge.Claimed? && w.bridge.command.request == Some(r) {
      ClaimedIsAnswered(w, r);
    } else {
      match w.bridge
      case Idle => IdleAnswers(w, r);
      case Claimed(_) => ClaimedAnswersNext(w, r);
      case Executing(_) => BusyAnswersNext(w, r);
      case Replying(_) => ReplyingAnswers(w, r);
    }
  }

  // ----- Abandoned operations -----

  /**
    In every reachable state with a ready journal and no worker, `_reclaimable` accepts exactly the operations that
    are provably over: no started composite, and either an answered request or none and no doubt. Nothing is in
    flight then, and an answered request ran exactly once.
   */
  lemma ReclaimedWorkIsOver(init: World, steps: seq<Step>, w: World)
    requires Init(init) && Reaches(init, steps, w) && IsReady(w) && HasOperation(w) && w.worker.None?
    ensures var o := Op(w);
            && (Reclaimable(o, w.response) <==>
                  && (o.composite ==> !o.started)
                  && (|| (o.pending.None? && !o.uncertain)
                      || (o.pending.Some? && w.response.Some? && w.response.value.id == o.pending)))
            && (Reclaimable(o, w.response) ==>
                  && (forall r :: !InFlight(w, r))
                  && (o.pending.Some? ==>
                        && w.log.executed[o.pending.value] == 1
                        && (HostOutcome(w.response.value) == Completed <==> o.pending.value in w.log.returned)))
  {
    InitEstablishes(init);
    RunKeeps(init, steps, w);
    forall r | Reclaimable(Op(w), w.response)
      ensures !InFlight(w, r)
    {
      if InFlight(w, r) {
        SingleRequestInFlight(init, steps, w, r);
      }
    }
  }
}
