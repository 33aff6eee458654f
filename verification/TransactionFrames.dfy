/** What the steps of each phase leave alone: frame facts the theorems about whole runs are built from. */
module TransactionFrames {
  import opened Basics
  import opened BridgeReply
  import opened TransactionWorld
  import opened TransactionProtocol

  predicate IsFenced(w: World) {
    w.journal.Some? && w.journal.value.state != Ready
  }

  lemma BridgeFrame(w: World, s: BridgeStep)
    requires BridgeEnabled(w, s)
    ensures var v := BridgeApply(w, s);
            && v.journal == w.journal && v.worker == w.worker && v.guard == w.guard
            && v.log.published == w.log.published && v.next.operation == w.next.operation
            && (s.ForeignStaging? || v.staging == w.staging)
            && (v.bridge.NotStarted? <==> w.bridge.NotStarted?) && (w.bridge.Dead? ==> v.bridge.Dead?)
  { }

  lemma EntryFrame(w: World, s: EntryStep)
    requires EntryEnabled(w, s)
    ensures var v := EntryApply(w, s);
            && v.log.executed == w.log.executed
            && v.staging == w.staging && v.log.published == w.log.published && v.bridge == w.bridge
            && v.next.operation >= w.next.operation
  { }

  lemma EntryPc(w: World, s: EntryStep)
    requires EntryEnabled(w, s)
    ensures EntryApply(w, s).worker.Some? ==> !EntryApply(w, s).worker.value.pc.WithdrawVerified?
  { }

  lemma EntryJournal(w: World, s: EntryStep)
    requires EntryEnabled(w, s) && !s.Initialise? && !s.Admit?
    ensures EntryApply(w, s).journal == w.journal
  { }

  lemma StagingFrame(w: World, s: StagingStep)
    requires StagingEnabled(w, s)
    ensures var v := StagingApply(w, s);
            && v.log.executed == w.log.executed
            && v.log.published == w.log.published && v.bridge == w.bridge && v.next.operation == w.next.operation
            && (v.worker.Some? ==> v.worker == w.worker || !v.worker.value.pc.WithdrawVerified?)
  { }

  lemma StagingJournal(w: World, s: StagingStep)
    requires StagingEnabled(w, s) && HasOperation(w)
    ensures HasOperation(StagingApply(w, s))
    ensures Op(StagingApply(w, s)).(artifacts := []) == Op(w).(artifacts := [])
  { }

  lemma JournalPendingFrame(w: World, fault: Fault)
    requires PublishEnabled(w, JournalPending(fault))
    ensures var v := PublishApply(w, JournalPending(fault));
            && v.log.executed == w.log.executed
            && v.staging == w.staging && v.bridge == w.bridge && v.next.operation == w.next.operation
  { }

  lemma UndoPendingFrame(w: World, fault: Fault)
    requires PublishEnabled(w, UndoPending(fault))
    ensures var v := PublishApply(w, UndoPending(fault));
            && v.log.executed == w.log.executed
            && v.staging == w.staging && v.bridge == w.bridge && v.next.operation == w.next.operation
  { }

  lemma PublishFrame(w: World, s: PublishStep)
    requires PublishEnabled(w, s)
    ensures var v := PublishApply(w, s);
            && v.log.executed == w.log.executed
            && v.staging == w.staging && v.bridge == w.bridge && v.next.operation == w.next.operation
  {
    match s
    case JournalPending(fault) => JournalPendingFrame(w, fault);
    case UndoPending(fault) => UndoPendingFrame(w, fault);
    case _ =>
  }

  lemma PublishPc(w: World, s: PublishStep)
    requires PublishEnabled(w, s)
    ensures PublishApply(w, s).worker.Some? ==> !PublishApply(w, s).worker.value.pc.WithdrawVerified?
  { }

  lemma PublishJournal(w: World, s: PublishStep)
    requires PublishEnabled(w, s) && HasOperation(w)
    ensures HasOperation(PublishApply(w, s)) && Op(PublishApply(w, s)).id == Op(w).id
  { }

  lemma PollFrame(w: World, s: PollStep)
    requires PollEnabled(w, s)
    ensures var v := PollApply(w, s);
            && v.log.executed == w.log.executed
            && v.staging == w.staging && v.bridge == w.bridge && v.next.operation == w.next.operation
            && v.log.published == w.log.published
  { }

  lemma PollPc(w: World, s: PollStep)
    requires PollEnabled(w, s)
    ensures PollApply(w, s).worker.Some? ==> !PollApply(w, s).worker.value.pc.WithdrawVerified?
  { }

  lemma PollJournal(w: World, s: PollStep)
    requires PollEnabled(w, s) && HasOperation(w)
    ensures HasOperation(PollApply(w, s)) && Op(PollApply(w, s)).id == Op(w).id
  { }

  lemma WithdrawFrame(w: World, s: WithdrawStep)
    requires WithdrawEnabled(w, s)
    ensures var v := WithdrawApply(w, s);
            && v.log.executed == w.log.executed
            && v.staging == w.staging && v.bridge == w.bridge && v.next.operation == w.next.operation
            && v.log.published == w.log.published
  { }

  lemma WithdrawJournal(w: World, s: WithdrawStep)
    requires WithdrawEnabled(w, s) && HasOperation(w)
    ensures HasOperation(WithdrawApply(w, s)) && Op(WithdrawApply(w, s)).id == Op(w).id
  { }

  lemma MarkFrame(w: World, s: MarkStep)
    requires MarkEnabled(w, s)
    ensures var v := MarkApply(w, s);
            && v.log.executed == w.log.executed
            && v.staging == w.staging && (v.bridge == w.bridge || s.Spawn?) && v.next.operation == w.next.operation
            && v.log.published == w.log.published
  { }

  lemma MarkPc(w: World, s: MarkStep)
    requires MarkEnabled(w, s)
    ensures MarkApply(w, s).worker.Some? ==> !MarkApply(w, s).worker.value.pc.WithdrawVerified?
  { }

  lemma MarkJournal(w: World, s: MarkStep)
    requires MarkEnabled(w, s) && HasOperation(w)
    ensures HasOperation(MarkApply(w, s)) && Op(MarkApply(w, s)).id == Op(w).id
  { }

  lemma FinishFrame(w: World, s: FinishStep)
    requires FinishEnabled(w, s)
    ensures var v := FinishApply(w, s);
            && v.log.executed == w.log.executed
            && v.staging == w.staging && v.bridge == w.bridge && v.next.operation == w.next.operation
            && v.log.published == w.log.published
  { }

  lemma FinishPc(w: World, s: FinishStep)
    requires FinishEnabled(w, s)
    ensures FinishApply(w, s).worker.Some? ==> !FinishApply(w, s).worker.value.pc.WithdrawVerified?
  { }

  lemma RecoveryFrame(w: World, s: RecoveryStep)
    requires RecoveryEnabled(w, s)
    ensures var v := RecoveryApply(w, s);
            && v.log.executed == w.log.executed
            && v.staging == w.staging && v.log.published == w.log.published && v.worker == w.worker
            && v.next.operation == w.next.operation && (v.bridge == w.bridge || v.bridge.Dead?)
  { }

  lemma RecoveryJournal(w: World, s: RecoveryStep)
    requires RecoveryEnabled(w, s)
    ensures var v := RecoveryApply(w, s);
            && (HasOperation(v) ==> HasOperation(w) && Op(v).(artifacts := []) == Op(w).(artifacts := []))
            && (IsFenced(w) ==> IsFenced(v) && v.journal.value.generation == w.journal.value.generation)
            && (HasOperation(w) && !HasOperation(v) ==> s.RecoverFinish?)
  { }
}
