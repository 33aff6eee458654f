/**
  Journaled artifacts name only inodes and requests that exist already, so a fresh request finds none of
  its own and a swept path cannot become the journaled file again.
 */
module TransactionArtifacts {
  import opened Basics
  import opened BridgeReply
  import opened TransactionWorld
  import opened TransactionProtocol

  predicate Known(a: Artifact, inode: nat, issued: set<Request>) {
    a.inode < inode && (a.request.Some? ==> a.request.value in issued)
  }

  ghost predicate AllKnown(artifacts: seq<Artifact>, inode: nat, issued: set<Request>) {
    forall a :: a in artifacts ==> Known(a, inode, issued)
  }

  lemma KnownStays(artifacts: seq<Artifact>, inode: nat, issued: set<Request>, later: nat, more: set<Request>)
    requires AllKnown(artifacts, inode, issued) && inode <= later && issued <= more
    ensures AllKnown(artifacts, later, more)
  { }

  function Listed(w: World): seq<Artifact> {
    if HasOperation(w) then Op(w).artifacts else []
  }

  ghost predicate Artifacts(w: World) {
    && AllKnown(Listed(w), w.next.inode, w.log.issued)
    && (w.worker.Some? && (w.worker.value.pc.Staging? || w.worker.value.pc.Unstaging?) ==>
          Known(w.worker.value.pc.artifact, w.next.inode, w.log.issued))
    && (w.worker.Some? && w.worker.value.pc.FinishUndo? ==> w.worker.value.pc.operation.artifacts == [])
    && (w.worker.Some? && w.worker.value.pc.PublishEntered? ==> w.worker.value.pc.request in w.log.issued)
  }

  lemma {:induction false} TagMembers(artifacts: seq<Artifact>, r: Request, a: Artifact)
    requires a in Tag(artifacts, r)
    ensures exists b :: b in artifacts && a.inode == b.inode && (a.request == b.request || a.request == Some(r))
  {
    if a != Tag(artifacts, r)[0] {
      TagMembers(artifacts[1..], r, a);
    } else {
      assert artifacts[0] in artifacts;
    }
  }

  lemma {:induction false} UntagMembers(artifacts: seq<Artifact>, r: Request, a: Artifact)
    requires a in Untag(artifacts, r)
    ensures exists b :: b in artifacts && a.inode == b.inode && (a.request == b.request || a.request.None?)
  {
    if a != Untag(artifacts, r)[0] {
      UntagMembers(artifacts[1..], r, a);
    } else {
      assert artifacts[0] in artifacts;
    }
  }

  lemma TagKnown(artifacts: seq<Artifact>, r: Request, inode: nat, issued: set<Request>)
    requires r in issued && AllKnown(artifacts, inode, issued)
    ensures AllKnown(Tag(artifacts, r), inode, issued)
  {
    forall a | a in Tag(artifacts, r)
      ensures Known(a, inode, issued)
    {
      TagMembers(artifacts, r, a);
    }
  }

  lemma UntagKnown(artifacts: seq<Artifact>, r: Request, inode: nat, issued: set<Request>)
    requires AllKnown(artifacts, inode, issued)
    ensures AllKnown(Untag(artifacts, r), inode, issued)
  {
    forall a | a in Untag(artifacts, r)
      ensures Known(a, inode, issued)
    {
      UntagMembers(artifacts, r, a);
    }
  }

  lemma StepKeepsArtifacts(w: World, s: Step)
    requires Artifacts(w) && Enabled(w, s)
    ensures Artifacts(Apply(w, s))
  {
    match s
    case OfBridge(t) => BridgeKeepsArtifacts(w, t);
    case OfEntry(t) => EntryKeepsArtifacts(w, t);
    case OfStaging(t) => StagingKeepsArtifacts(w, t);
    case OfPublish(t) => PublishKeepsArtifacts(w, t);
    case OfPoll(t) => PollKeepsArtifacts(w, t);
    case OfWithdraw(t) => WithdrawKeepsArtifacts(w, t);
    case OfMark(t) => MarkKeepsArtifacts(w, t);
    case OfFinish(t) => FinishKeepsArtifacts(w, t);
    case OfRecovery(t) => RecoveryKeepsArtifacts(w, t);
  }

  lemma {:induction false} RunKeepsArtifacts(w: World, steps: seq<Step>, v: World)
    requires Artifacts(w) && Reaches(w, steps, v)
    ensures Artifacts(v)
    decreases |steps|
  {
    if steps == [] {
    } else {
      StepKeepsArtifacts(w, steps[0]);
      RunKeepsArtifacts(Apply(w, steps[0]), steps[1..], v);
    }
  }

  lemma BridgeKeepsArtifacts(w: World, s: BridgeStep)
    requires Artifacts(w) && BridgeEnabled(w, s)
    ensures Artifacts(BridgeApply(w, s))
  {
    var v := BridgeApply(w, s);
    KnownStays(Listed(w), w.next.inode, w.log.issued, v.next.inode, v.log.issued);
  }

  lemma EntryKeepsArtifacts(w: World, s: EntryStep)
    requires Artifacts(w) && EntryEnabled(w, s)
    ensures Artifacts(EntryApply(w, s))
  {
    var v := EntryApply(w, s);
    KnownStays(Listed(w), w.next.inode, w.log.issued, v.next.inode, v.log.issued);
  }

  lemma StagingKeepsArtifacts(w: World, s: StagingStep)
    requires Artifacts(w) && StagingEnabled(w, s)
    ensures Artifacts(StagingApply(w, s))
  {
    var v := StagingApply(w, s);
    KnownStays(Listed(w), w.next.inode, w.log.issued, v.next.inode, v.log.issued);
  }

  lemma NamingKeepsArtifacts(w: World, fault: Fault)
    requires Artifacts(w) && PublishEnabled(w, JournalPending(fault))
    ensures Artifacts(PublishApply(w, JournalPending(fault)))
  {
    TagKnown(Op(w).artifacts, w.worker.value.pc.request, w.next.inode, w.log.issued);
  }

  lemma UndoingKeepsArtifacts(w: World, fault: Fault)
    requires Artifacts(w) && PublishEnabled(w, UndoPending(fault))
    ensures Artifacts(PublishApply(w, UndoPending(fault)))
  {
    UntagKnown(Op(w).artifacts, w.worker.value.pc.request, w.next.inode, w.log.issued);
  }

  lemma PublishKeepsArtifacts(w: World, s: PublishStep)
    requires Artifacts(w) && PublishEnabled(w, s)
    ensures Artifacts(PublishApply(w, s))
  {
    match s
    case JournalPending(fault) => NamingKeepsArtifacts(w, fault);
    case UndoPending(fault) => UndoingKeepsArtifacts(w, fault);
    case _ =>
      var v := PublishApply(w, s);
      KnownStays(Listed(w), w.next.inode, w.log.issued, v.next.inode, v.log.issued);
  }

  lemma PollKeepsArtifacts(w: World, s: PollStep)
    requires Artifacts(w) && PollEnabled(w, s)
    ensures Artifacts(PollApply(w, s))
  {
    var v := PollApply(w, s);
    KnownStays(Listed(w), w.next.inode, w.log.issued, v.next.inode, v.log.issued);
  }

  lemma WithdrawKeepsArtifacts(w: World, s: WithdrawStep)
    requires Artifacts(w) && WithdrawEnabled(w, s)
    ensures Artifacts(WithdrawApply(w, s))
  {
    var v := WithdrawApply(w, s);
    KnownStays(Listed(w), w.next.inode, w.log.issued, v.next.inode, v.log.issued);
    if s.UndoWithdrawn? {
      UntagKnown(Op(w).artifacts, w.worker.value.pc.request, w.next.inode, w.log.issued);
    }
  }

  lemma MarkKeepsArtifacts(w: World, s: MarkStep)
    requires Artifacts(w) && MarkEnabled(w, s)
    ensures Artifacts(MarkApply(w, s))
  {
    var v := MarkApply(w, s);
    KnownStays(Listed(w), w.next.inode, w.log.issued, v.next.inode, v.log.issued);
  }

  lemma FinishKeepsArtifacts(w: World, s: FinishStep)
    requires Artifacts(w) && FinishEnabled(w, s)
    ensures Artifacts(FinishApply(w, s))
  {
    var v := FinishApply(w, s);
    KnownStays(Listed(w), w.next.inode, w.log.issued, v.next.inode, v.log.issued);
  }

  lemma RecoveryKeepsArtifacts(w: World, s: RecoveryStep)
    requires Artifacts(w) && RecoveryEnabled(w, s)
    ensures Artifacts(RecoveryApply(w, s))
  {
    var v := RecoveryApply(w, s);
    KnownStays(Listed(w), w.next.inode, w.log.issued, v.next.inode, v.log.issued);
  }
}
