/**
  The host's own code over one shared session directory. Every method takes its filesystem effects one
  atomic step at a time, lets bridge, recovery and outside programs act in between, and leaves behind
  a run of the protocol; what the run guarantees is proved in the Transaction* modules.
 */
module SessionTransactions {
  import opened Basics
  import opened BridgeReply
  import opened TransactionWorld
  import opened TransactionProtocol
  import opened TransactionFrames
  import opened TransactionInvariant
  import opened TransactionSafety
  import opened TransactionFences
  import opened TransactionArtifacts

  // ----- What others may do between two effects of the worker -----

  predicate ByOthers(w: World, s: Step) {
    s.OfBridge? || s.OfRecovery? || (s.OfStaging? && s.staging.Sweep? && w.guard == ByRecovery)
  }

  /** No request was issued, published or reported in between. */
  predicate SameRequests(w: World, before: World) {
    && w.log.issued == before.log.issued && w.log.published == before.log.published
    && w.log.reports == before.log.reports
  }

  /** What a worker can rely on across the steps of others. */
  ghost predicate Undisturbed(w: World, v: World) {
    && v.worker == w.worker && v.next.operation == w.next.operation && v.renames == w.renames
    && SameRequests(v, w)
    && v.retained == w.retained && v.removed == w.removed && (v.bridge.NotStarted? ==> w.bridge.NotStarted?)
    && v.next.inode >= w.next.inode
    && (w.guard == ByWorker ==> v.guard == ByWorker && v.journal == w.journal)
    && (IsReady(v) ==> v.journal == w.journal)
    && (w.journal.Some? ==> v.journal.Some? && v.journal.value.generation == w.journal.value.generation)
    && (v.command == w.command || Waiting(v).None?)
    && (forall p :: p in w.staging && p in v.staging ==> v.staging[p] == w.staging[p] || v.staging[p] >= w.next.inode)
    && (forall p :: p in v.staging && p !in w.staging ==> v.staging[p] >= w.next.inode)
  }

  lemma BridgeUndisturbed(w: World, s: BridgeStep)
    requires BridgeEnabled(w, s)
    ensures Undisturbed(w, BridgeApply(w, s))
  { }

  lemma FenceUndisturbed(w: World, s: RecoveryStep)
    requires RecoveryEnabled(w, s) && Locks(w) && s.RecoverBegin?
    ensures Undisturbed(w, RecoveryApply(w, s))
  { }

  lemma FinishUndisturbed(w: World, s: RecoveryStep)
    requires RecoveryEnabled(w, s) && Locks(w) && Names(w) && (s.RecoverFinish? || s.RecoverSweepFailed?)
    ensures Undisturbed(w, RecoveryApply(w, s))
  { }

  lemma RecoveryUndisturbed(w: World, s: RecoveryStep)
    requires RecoveryEnabled(w, s) && Locks(w) && Names(w)
    ensures Undisturbed(w, RecoveryApply(w, s))
  {
    if s.RecoverBegin? {
      FenceUndisturbed(w, s);
    } else if s.RecoverFinish? || s.RecoverSweepFailed? {
      FinishUndisturbed(w, s);
    }
  }

  lemma SweepUndisturbed(w: World, s: StagingStep)
    requires StagingEnabled(w, s) && s.Sweep?
    ensures Undisturbed(w, StagingApply(w, s))
  { }

  lemma OthersUndisturbed(w: World, s: Step)
    requires Inv(w) && Enabled(w, s) && ByOthers(w, s)
    ensures Undisturbed(w, Apply(w, s))
  {
    match s
    case OfBridge(t) => BridgeUndisturbed(w, t);
    case OfRecovery(t) => RecoveryUndisturbed(w, t);
    case OfStaging(t) => SweepUndisturbed(w, t);
  }

  /** Each state of the past is reached by as many steps of the run. */
  ghost predicate IsPast(origin: World, run: seq<Step>, past: seq<World>) {
    && |past| == |run| + 1
    && forall k {:trigger Reaches(origin, run[..k], past[k])} :: 0 <= k <= |run| ==> Reaches(origin, run[..k], past[k])
  }

  lemma PastGrows(origin: World, run: seq<Step>, past: seq<World>, s: Step, v: World)
    requires IsPast(origin, run, past) && Reaches(origin, run + [s], v)
    ensures IsPast(origin, run + [s], past + [v])
  {
    forall k | 0 <= k <= |run| + 1
      ensures Reaches(origin, (run + [s])[..k], (past + [v])[k])
    {
      if k <= |run| {
        assert (run + [s])[..k] == run[..k];
        assert Reaches(origin, run[..k], past[k]);
      } else {
        assert (run + [s])[..k] == run + [s];
      }
    }
  }

  class SessionDirectory {
    var world: World
    ghost const origin: World
    ghost var run: seq<Step>
    /** The state before each step of the run, and the present one. */
    ghost var past: seq<World>

    /** The directory's whole past is a run of the protocol. */
    ghost predicate Valid()
      reads this
    {
      && Init(origin) && Reaches(origin, run, world)
      && IsPast(origin, run, past) && past[|run|] == world
    }

    /** The run and the past only grow. */
    twostate predicate Continues()
      reads this
    {
      old(run) <= run && old(past) <= past
    }

    /** The `k`-th state lies between the beginning of a call and its end. */
    twostate predicate Since(k: nat)
      reads this
    {
      |old(past)| <= k + 1 <= |past|
    }

    constructor (w: World)
      requires Init(w)
      ensures Valid() && world == w && run == []
    {
      world := w;
      origin := w;
      run := [];
      past := [w];
    }

    lemma Facts()
      requires Valid()
      ensures Inv(world) && Reports(world) && Artifacts(world)
    {
      InitEstablishes(origin);
      RunKeeps(origin, run, world);
      RunKeepsArtifacts(origin, run, world);
    }

    /** One atomic effect. */
    method Take(s: Step)
      requires Valid() && Enabled(world, s)
      modifies this
      ensures Valid() && run == old(run) + [s] && past == old(past) + [world] && world == Apply(old(world), s)
    {
      ReachesConcat(origin, run, world, [s], Apply(world, s));
      PastGrows(origin, run, past, s, Apply(world, s));
      world := Apply(world, s);
      run := run + [s];
      past := past + [world];
    }

    method TakeEntry(s: EntryStep)
      requires Valid() && EntryEnabled(world, s)
      modifies this
      ensures Valid() && run == old(run) + [OfEntry(s)] && past == old(past) + [world]
      ensures world == EntryApply(old(world), s)
    {
      Take(OfEntry(s));
    }

    method TakeStaging(s: StagingStep)
      requires Valid() && StagingEnabled(world, s)
      modifies this
      ensures Valid() && run == old(run) + [OfStaging(s)] && past == old(past) + [world]
      ensures world == StagingApply(old(world), s)
    {
      Take(OfStaging(s));
    }

    method TakeFinish(s: FinishStep)
      requires Valid() && FinishEnabled(world, s)
      modifies this
      ensures Valid() && run == old(run) + [OfFinish(s)] && past == old(past) + [world]
      ensures world == FinishApply(old(world), s)
    {
      Take(OfFinish(s));
    }

    method TakeRecovery(s: RecoveryStep)
      requires Valid() && RecoveryEnabled(world, s)
      modifies this
      ensures Valid() && run == old(run) + [OfRecovery(s)] && past == old(past) + [world]
      ensures world == RecoveryApply(old(world), s)
    {
      Take(OfRecovery(s));
    }

    method TakePublish(s: PublishStep)
      requires Valid() && PublishEnabled(world, s)
      modifies this
      ensures Valid() && run == old(run) + [OfPublish(s)] && past == old(past) + [world]
      ensures world == PublishApply(old(world), s)
    {
      Take(OfPublish(s));
    }

    method TakePoll(s: PollStep)
      requires Valid() && PollEnabled(world, s)
      modifies this
      ensures Valid() && run == old(run) + [OfPoll(s)] && past == old(past) + [world]
      ensures world == PollApply(old(world), s)
    {
      Take(OfPoll(s));
    }

    method TakeWithdraw(s: WithdrawStep)
      requires Valid() && WithdrawEnabled(world, s)
      modifies this
      ensures Valid() && run == old(run) + [OfWithdraw(s)] && past == old(past) + [world]
      ensures world == WithdrawApply(old(world), s)
    {
      Take(OfWithdraw(s));
    }

    /** Whatever bridge, recovery and outside programs do before the worker's next effect. */
    method Interfere()
      requires Valid()
      modifies this
      ensures Valid() && Continues() && Undisturbed(old(world), world)
    {
      var n: nat := *;
      while n > 0
        invariant Valid() && Continues() && Undisturbed(old(world), world)
      {
        var s: Step := *;
        if ByOthers(world, s) && Enabled(world, s) {
          Facts();
          OthersUndisturbed(world, s);
          Take(s);
        }
        n := n - 1;
      }
    }
  }

  // ----- Cleaning up staging files -----

  /** Of the first `n` artifacts, each is kept for the journal or there is no file at its path any more. */
  ghost predicate SweptTo(w: World, artifacts: seq<Artifact>, n: nat, kept: seq<Artifact>)
    requires n <= |artifacts|
  {
    forall i :: 0 <= i < n ==> artifacts[i] in kept || artifacts[i].path !in w.staging
  }

  /** Only files of these artifacts were removed, and none was added. */
  ghost predicate OnlyRemoved(before: map<nat, nat>, after: map<nat, nat>, artifacts: seq<Artifact>) {
    && (forall p :: p in before && p !in after ==>
          exists a :: a in artifacts && a.path == p && a.inode == before[p])
    && (forall p :: p in after ==> p in before && after[p] == before[p])
  }

  /** None of the operation's files is left. */
  ghost predicate SweptAway(w: World) {
    HasOperation(w) && SweptTo(w, Op(w).artifacts, |Op(w).artifacts|, [])
  }

  /** The file is there but cannot go: it was replaced, or is one of the `stuck` ones whose unlink fails. */
  predicate Unremovable(w: World, a: Artifact, stuck: set<Artifact>) {
    a.path in w.staging && (a in stuck || w.staging[a.path] != a.inode)
  }

  /** Nothing keeps the operation's files from going. */
  ghost predicate Removable(w: World, stuck: set<Artifact>) {
    HasOperation(w) && forall a :: a in Op(w).artifacts ==> !Unremovable(w, a, stuck)
  }

  /**
    `_cleanup_screenshots` for the worker or the recovery that holds the state lock: unlink each
    journaled file that still has its journaled inode and skip missing ones. Exactly a file that was replaced or
    cannot be unlinked is kept for the journal.
   */
  method CleanupScreenshots(directory: SessionDirectory, stuck: set<Artifact>) returns (kept: seq<Artifact>)
    requires directory.Valid() && MaySweep(directory.world) && directory.world.guard != Free
    modifies directory
    ensures directory.Valid() && directory.Continues()
    ensures directory.world == old(directory.world).(staging := directory.world.staging)
    ensures forall a :: a in kept ==>
              a in Op(old(directory.world)).artifacts && Unremovable(old(directory.world), a, stuck)
    ensures SweptTo(directory.world, Op(old(directory.world)).artifacts, |Op(old(directory.world)).artifacts|, kept)
    ensures OnlyRemoved(old(directory.world).staging, directory.world.staging, Op(old(directory.world)).artifacts)
    ensures Removable(old(directory.world), stuck) ==> kept == []
  {
    var artifacts := Op(directory.world).artifacts;
    kept := [];
    for i := 0 to |artifacts|
      invariant directory.Valid() && directory.Continues()
      invariant directory.world == old(directory.world).(staging := directory.world.staging)
      invariant forall a :: a in kept ==> a in artifacts && Unremovable(old(directory.world), a, stuck)
      invariant SweptTo(directory.world, artifacts, i, kept)
      invariant OnlyRemoved(old(directory.world).staging, directory.world.staging, artifacts)
    {
      var swept := CleanUp(directory, artifacts[i], stuck);
      kept := if swept then kept else kept + [artifacts[i]];
    }
    assert kept != [] ==> kept[0] in kept;
  }

  /** One file of the cleanup. */
  method CleanUp(directory: SessionDirectory, a: Artifact, stuck: set<Artifact>) returns (swept: bool)
    requires directory.Valid() && MaySweep(directory.world) && a in Op(directory.world).artifacts
    modifies directory
    ensures directory.Valid() && directory.Continues()
    ensures swept <==> !Unremovable(old(directory.world), a, stuck)
    ensures directory.world
         == old(directory.world).(staging := if swept then old(directory.world).staging - {a.path}
                                             else old(directory.world).staging)
    ensures swept && a.path in old(directory.world).staging ==> old(directory.world).staging[a.path] == a.inode
  {
    swept := true;
    if a.path in directory.world.staging {
      if a in stuck || directory.world.staging[a.path] != a.inode {
        swept := false;
      } else {
        directory.TakeStaging(Sweep(a));
      }
    } else {
      assert directory.world.staging - {a.path} == directory.world.staging;
    }
  }

  // ----- Acquiring a transaction -----

  datatype Admission = Admitted(id: nat) | Refused

  /** What the system answers while a transaction is admitted. */
  datatype EntryAnswers = EntryAnswers(initial: Fault, stuck: set<Artifact>, kept: Fault, entry: Fault, expired: bool)

  /** The journal lets a worker in that holds the operation lock. */
  predicate Usable(w: World, created: bool, initial: Fault) {
    if w.journal.None? && !created then initial == Clean else w.journal.None? || IsReady(w)
  }

  /**
    The start of `transaction`: take the operation lock without waiting, read or create the journal, and
    insist on a ready session. `created` is `create=True`, which needs a directory nobody initialised. The lock
    is looked at in the state `locked`, the journal in the state `read`.
   */
  method OpenJournal(directory: SessionDirectory, created: bool, initial: Fault)
    returns (open: bool, ghost locked: nat, ghost read: nat)
    requires directory.Valid()
    modifies directory
    ensures directory.Valid() && directory.Continues() && directory.Since(locked) && directory.Since(read)
    ensures open <==>
              && EntryEnabled(directory.past[locked], Acquire(created))
              && Usable(directory.past[read], created, initial)
    ensures open ==>
              && At(directory.world, Entering) && directory.world.worker.value.created == created
              && directory.world.guard == ByWorker && old(directory.world).worker.None?
              && (if created then directory.world.journal.None? else IsReady(directory.world))
              && (HasOperation(directory.world) <==> HasOperation(directory.past[read]))
    ensures open && old(directory.world).journal.Some? ==> directory.world.journal == old(directory.world).journal
    ensures open && old(directory.world).journal.None? ==> !HasOperation(directory.world)
    ensures SameRequests(directory.world, old(directory.world))
    ensures !open ==> directory.world.worker.None? || directory.world.worker == old(directory.world).worker
  {
    directory.Interfere();
    locked, read := |directory.past| - 1, |directory.past| - 1;
    if directory.world.worker.Some? || directory.world.guard != Free || directory.world.removed
       || (created && !(directory.world.journal.None? && directory.world.bridge.NotStarted?)) {
      return false, locked, read;
    }
    directory.TakeEntry(Acquire(created));
    open, read := ReadJournal(directory, initial);
  }

  /** The journal under the operation lock: create a missing one unless the directory is new, insist on ready. */
  method ReadJournal(directory: SessionDirectory, initial: Fault) returns (open: bool, ghost read: nat)
    requires directory.Valid() && At(directory.world, Entering) && directory.world.guard == ByWorker
    requires directory.world.worker.value.created ==> directory.world.journal.None?
    modifies directory
    ensures directory.Valid() && directory.Continues() && directory.Since(read)
    ensures open <==> Usable(directory.past[read], old(directory.world).worker.value.created, initial)
    ensures open ==>
              && directory.world.worker == old(directory.world).worker && directory.world.guard == ByWorker
              && (if directory.world.worker.value.created then directory.world.journal.None?
                  else IsReady(directory.world))
              && (HasOperation(directory.world) <==> HasOperation(directory.past[read]))
    ensures open && old(directory.world).journal.Some? ==> directory.world.journal == old(directory.world).journal
    ensures open && old(directory.world).journal.None? ==> !HasOperation(directory.world)
    ensures SameRequests(directory.world, old(directory.world))
    ensures !open ==> directory.world.worker.None?
  {
    directory.Interfere();
    read := |directory.past| - 1;
    if directory.world.journal.None? && !directory.world.worker.value.created {
      directory.TakeEntry(Initialise(initial));
      if initial != Clean {
        return false, read;
      }
    } else if directory.world.journal.Some? && !IsReady(directory.world) {
      directory.TakeEntry(WorkerGone);
      return false, read;
    }
    open := true;
  }

  /**
    The middle of `transaction`: refuse an abandoned operation unless it is provably resolved, and clean
    its staging files up. Whether it is resolved is decided in the state `judged`, the cleanup starts in `swept`.
   */
  method ReclaimAbandoned(directory: SessionDirectory, stuck: set<Artifact>, fault: Fault)
    returns (resolved: bool, ghost judged: nat, ghost swept: nat)
    requires directory.Valid() && At(directory.world, Entering) && directory.world.guard == ByWorker
    requires IsReady(directory.world) && HasOperation(directory.world)
    modifies directory
    ensures directory.Valid() && directory.Continues() && directory.Since(judged) && directory.Since(swept)
    ensures HasOperation(directory.past[judged])
    ensures resolved ==> Reclaimable(Op(directory.past[judged]), directory.past[judged].response)
    ensures (&& Reclaimable(Op(directory.past[judged]), directory.past[judged].response)
             && Removable(directory.past[swept], stuck)) ==> resolved
    ensures resolved ==>
              && At(directory.world, Reclaiming) && directory.world.guard == ByWorker
              && directory.world.worker == Some(old(directory.world).worker.value.(pc := Reclaiming))
              && directory.world.journal == old(directory.world).journal
              && SweptAway(directory.world)
              && !(Op(directory.world).composite && Op(directory.world).started)
    ensures SameRequests(directory.world, old(directory.world))
    ensures !resolved ==> directory.world.worker.None?
  {
    directory.Interfere();
    judged, swept := |directory.past| - 1, |directory.past| - 1;
    if !Reclaimable(Op(directory.world), directory.world.response) {
      directory.TakeEntry(WorkerGone);
      return false, judged, swept;
    }
    directory.TakeEntry(Reclaim);
    resolved, swept := SweepAbandoned(directory, stuck, fault);
  }

  /** The cleanup of a reclaimed operation: what cannot be removed keeps it in the journal. */
  method SweepAbandoned(directory: SessionDirectory, stuck: set<Artifact>, fault: Fault)
    returns (resolved: bool, ghost swept: nat)
    requires directory.Valid() && At(directory.world, Reclaiming) && directory.world.guard == ByWorker
    requires HasOperation(directory.world)
    modifies directory
    ensures directory.Valid() && directory.Continues() && directory.Since(swept)
    ensures Removable(directory.past[swept], stuck) ==> resolved
    ensures resolved ==>
              && directory.world.worker == old(directory.world).worker && directory.world.guard == ByWorker
              && directory.world.journal == old(directory.world).journal
              && SweptAway(directory.world)
    ensures SameRequests(directory.world, old(directory.world))
    ensures !resolved ==> directory.world.worker.None?
    ensures !resolved && fault == Clean ==>
              StillListed(directory.world, old(directory.world), directory.past[swept], stuck)
  {
    directory.Interfere();
    swept := |directory.past| - 1;
    var kept := CleanupScreenshots(directory, stuck);
    if kept != [] {
      directory.TakeStaging(SweepFailed(kept, fault));
      return false, swept;
    }
    resolved := true;
  }

  /** After a failed cleanup the journal lists what is left: every file that is still there, and only such files. */
  ghost predicate StillListed(w: World, before: World, swept: World, stuck: set<Artifact>) {
    && HasOperation(w) && HasOperation(before) && Op(w).(artifacts := []) == Op(before).(artifacts := [])
    && Op(w).artifacts != []
    && (forall a :: a in Op(w).artifacts ==> a in Op(before).artifacts && Unremovable(swept, a, stuck))
    && (forall a :: a in Op(before).artifacts ==> a in Op(w).artifacts || a.path !in w.staging)
  }

  /** The states in which an admission looks at the lock, the journal, an abandoned operation and its files. */
  datatype EntrySight = EntrySight(locked: nat, read: nat, judged: nat, swept: nat)

  /** Nothing that was seen and answered stands against the admission. */
  ghost predicate Admissible(past: seq<World>, sight: EntrySight, created: bool, answers: EntryAnswers)
    requires sight.locked < |past| && sight.read < |past| && sight.judged < |past| && sight.swept < |past|
  {
    && EntryEnabled(past[sight.locked], Acquire(created))
    && Usable(past[sight.read], created, answers.initial)
    && (HasOperation(past[sight.read]) ==>
          && HasOperation(past[sight.judged])
          && Reclaimable(Op(past[sight.judged]), past[sight.judged].response)
          && Removable(past[sight.swept], answers.stuck))
    && answers.entry == Clean && !answers.expired
  }

  /**
    `transaction`: on success the caller owns a ready session with a fresh, unstarted operation and
    nothing is in flight; an operation of somebody else was replaced only if it was not a started
    composite. It succeeds whenever nothing stands against it.
   */
  method Begin(directory: SessionDirectory, created: bool, composite: bool, answers: EntryAnswers)
    returns (admission: Admission, ghost sight: EntrySight)
    requires directory.Valid()
    modifies directory
    ensures directory.Valid() && directory.Continues()
    ensures directory.Since(sight.locked) && directory.Since(sight.read)
    ensures directory.Since(sight.judged) && directory.Since(sight.swept)
    ensures Admissible(directory.past, sight, created, answers) ==> admission.Admitted?
    ensures admission.Admitted? ==>
              && Entered(directory.world, admission.id, created, composite) && old(directory.world).worker.None?
    ensures admission.Admitted? && HasOperation(old(directory.world)) ==>
              && IsReady(old(directory.world))
              && !(Op(old(directory.world)).composite && Op(old(directory.world)).started)
    ensures SameRequests(directory.world, old(directory.world))
    ensures admission.Refused? ==> directory.world.worker.None? || directory.world.worker == old(directory.world).worker
  {
    var open;
    ghost var locked, read;
    open, locked, read := OpenJournal(directory, created, answers.initial);
    sight := EntrySight(locked, read, locked, locked);
    if !open {
      return Refused, sight;
    }
    if HasOperation(directory.world) {
      var resolved;
      ghost var judged, swept;
      resolved, judged, swept := ReclaimAbandoned(directory, answers.stuck, answers.kept);
      sight := sight.(judged := judged, swept := swept);
      if !resolved {
        return Refused, sight;
      }
    }
    admission := EnterOperation(directory, composite, answers.entry, answers.expired);
  }

  /** A worker inside its own transaction: it owns a ready session with a fresh operation and nothing is in flight. */
  ghost predicate Entered(w: World, id: nat, created: bool, composite: bool) {
    && AtRest(w, Holding) && Owned(w) && Quiet(w)
    && w.worker.value.id == id && w.worker.value.created == created
    && Op(w).id == id && Op(w).composite == composite && !Op(w).started
    && Op(w).pending.None? && !Op(w).uncertain && Op(w).artifacts == []
  }

  /** The end of `transaction`'s admission: journal the new operation, give the state lock back, check the deadline. */
  method EnterOperation(directory: SessionDirectory, composite: bool, fault: Fault, expired: bool)
    returns (admission: Admission)
    requires directory.Valid() && EntryEnabled(directory.world, Admit(composite, Clean))
    requires directory.world.worker.Some?
    modifies directory
    ensures directory.Valid() && directory.Continues()
    ensures admission.Admitted? <==> fault == Clean && !expired
    ensures admission.Admitted? ==>
              Entered(directory.world, admission.id, old(directory.world).worker.value.created, composite)
    ensures SameRequests(directory.world, old(directory.world))
    ensures admission.Refused? ==> directory.world.worker.None?
  {
    directory.TakeEntry(Admit(composite, fault));
    if fault != Clean {
      return Refused;
    }
    admission := CheckAdmitted(directory, expired);
  }

  /** The deadline check behind the admission; the operation of an expired one stays in the journal. */
  method CheckAdmitted(directory: SessionDirectory, expired: bool) returns (admission: Admission)
    requires directory.Valid() && directory.world.worker.Some? && Pending(directory.world).None?
    modifies directory
    ensures directory.Valid() && directory.Continues()
    ensures admission.Admitted? <==> !expired
    ensures admission.Admitted? ==>
              && directory.world == old(directory.world) && Quiet(directory.world)
              && directory.world.worker.value.id == admission.id
    ensures SameRequests(directory.world, old(directory.world))
    ensures admission.Refused? ==>
              directory.world.worker.None? && directory.world.journal == old(directory.world).journal
  {
    if expired {
      directory.TakeEntry(WorkerGone);
      return Refused;
    }
    NothingPendingIsQuiet(directory);
    admission := Admitted(directory.world.worker.value.id);
  }

  lemma NothingPendingIsQuiet(directory: SessionDirectory)
    requires directory.Valid() && Pending(directory.world).None?
    ensures Quiet(directory.world)
  {
    directory.Facts();
  }

  // ----- Finishing a transaction -----

  /** `Fenced` is the ownership check that meets the fence: it raises `not_executed` unless the body had failed. */
  datatype Finish = Retired | KeptFenced | NotRetired | Fenced

  predicate Unstarted(failed: bool, o: Operation) {
    !(failed && o.composite && o.started)
  }

  /** How a call that carries an answer may end when its transaction is over. */
  predicate ReturnedAs(report: Report, answer: Answer, outermost: bool) {
    && report.request == answer.request
    && match report.exit
       case ReturnedResponse => report.outcome == HostOutcome(answer.response)
       case TimedOut => !outermost && report.outcome == HostOutcome(answer.response)
       case LateExit => outermost && report.outcome == Completed
       case FencedWhileFinishing => report.outcome == NotExecuted
       case Raised => report.outcome == Unknown
       case FencedWhilePolling => false
  }

  /** What the system answers while a transaction is finished; `late` is a deadline that expires as the call returns. */
  datatype FinishAnswers = FinishAnswers(stuck: set<Artifact>, kept: Fault, write: Fault, restore: Fault, late: bool)

  function ReturnExit(late: bool, outermost: bool): Exit {
    if !late then ReturnedResponse else if outermost then LateExit else TimedOut
  }

  /** Nothing that was seen and answered stands against retiring the operation. */
  ghost predicate Retirable(entered: World, swept: World, failed: bool, answers: FinishAnswers) {
    && entered.guard == Free && Owned(entered) && Op(entered).pending.None? && !Op(entered).uncertain
    && !(failed && Op(entered).composite && Op(entered).started)
    && Removable(swept, answers.stuck) && answers.write == Clean
  }

  predicate Returns(exit: Exit) {
    exit == ReturnedResponse || exit == TimedOut || exit == LateExit
  }

  /** The report that goes with the end of a transaction: one exactly if a response was to be returned. */
  ghost predicate Answered(w: World, before: World, report: Option<Report>, result: Finish, outermost: bool) {
    && before.log.reports <= w.log.reports
    && before.worker.Some?
    && (report.Some? <==> Carried(before.worker.value.pc).Some?)
    && (report.Some? ==>
          && report.value in w.log.reports
          && ReturnedAs(report.value, Carried(before.worker.value.pc).value, outermost)
          && (result.Retired? <==> Returns(report.value.exit))
          && (report.value.exit.FencedWhileFinishing? ==> w.log.executed[report.value.request] == 1))
  }

  /**
    `_finish`: retire the operation if its execution is resolved, clean its staging files up first, and
    keep a failed, started composite in the journal. Unresolved or fenced work is left exactly as it is.
    An error raised here is raised past every handler of a `send_command` that was about to return. Ownership is
    checked in the state `entered`, the cleanup starts in `swept`; nothing else can stand against retiring.
   */
  method FinishTransaction(directory: SessionDirectory, failed: bool, outermost: bool, answers: FinishAnswers)
    returns (result: Finish, report: Option<Report>, ghost entered: nat, ghost swept: nat)
    requires directory.Valid() && directory.world.worker.Some?
    requires var pc := directory.world.worker.value.pc; pc.Holding? || (pc.Returning? && !failed)
    modifies directory
    ensures directory.Valid() && directory.Continues() && directory.Since(entered) && directory.Since(swept)
    ensures directory.world.worker.None?
    ensures Retirable(directory.past[entered], directory.past[swept], failed, answers) ==> result.Retired?
    ensures Answered(directory.world, old(directory.world), report, result, outermost)
    ensures result.Retired? && report.Some? ==> report.value.exit == ReturnExit(answers.late, outermost)
    ensures result.Retired? ==>
              && IsReady(old(directory.world)) && HasOperation(old(directory.world))
              && Resolved(Op(old(directory.world))) && Unstarted(failed, Op(old(directory.world)))
              && directory.world.journal == Some(old(directory.world).journal.value.(operation := None))
              && SweptTo(directory.world, Op(old(directory.world)).artifacts, |Op(old(directory.world)).artifacts|, [])
    ensures result.KeptFenced? ==>
              failed && HasOperation(directory.world) && Op(directory.world).composite && Op(directory.world).started
    ensures result.Fenced? <==> SeesFence(directory.past[entered])
    ensures result.Fenced? ==> IsFenced(directory.world)
  {
    directory.Facts();
    directory.Interfere();
    entered, swept := |directory.past| - 1, |directory.past| - 1;
    if directory.world.guard != Free || !Owned(directory.world) {
      result, report := Refuse(directory, outermost);
      return;
    }
    result, report, swept := EnterFinishing(directory, failed, outermost, answers);
  }

  /** `_finish` once the operation is known to be the worker's own. */
  method EnterFinishing(directory: SessionDirectory, failed: bool, outermost: bool, answers: FinishAnswers)
    returns (result: Finish, report: Option<Report>, ghost swept: nat)
    requires directory.Valid() && directory.world.worker.Some?
    requires directory.world.guard == Free && Owned(directory.world)
    requires var pc := directory.world.worker.value.pc; pc.Holding? || (pc.Returning? && !failed)
    modifies directory
    ensures directory.Valid() && directory.Continues() && directory.Since(swept)
    ensures directory.world.worker.None? && !result.Fenced?
    ensures Retirable(old(directory.world), directory.past[swept], failed, answers) ==> result.Retired?
    ensures Answered(directory.world, old(directory.world), report, result, outermost)
    ensures result.Retired? && report.Some? ==> report.value.exit == ReturnExit(answers.late, outermost)
    ensures result.Retired? ==>
              && Resolved(Op(old(directory.world))) && Unstarted(failed, Op(old(directory.world)))
              && directory.world.journal == Some(old(directory.world).journal.value.(operation := None))
              && SweptTo(directory.world, Op(old(directory.world)).artifacts, |Op(old(directory.world)).artifacts|, [])
    ensures result.KeptFenced? ==>
              failed && HasOperation(directory.world) && Op(directory.world).composite && Op(directory.world).started
  {
    directory.TakeFinish(EnterFinish(failed));
    result, report, swept := FinishOwned(directory, outermost, answers);
  }

  /** `_finish` over its own journal entry, under the state lock. */
  method FinishOwned(directory: SessionDirectory, outermost: bool, answers: FinishAnswers)
    returns (result: Finish, report: Option<Report>, ghost swept: nat)
    requires directory.Valid() && directory.world.worker.Some? && directory.world.worker.value.pc.Finishing?
    requires directory.world.guard == ByWorker && HasOperation(directory.world)
    requires directory.world.worker.value.pc.answer.Some? ==> !directory.world.worker.value.pc.failed
    modifies directory
    ensures directory.Valid() && directory.Continues() && directory.Since(swept)
    ensures directory.world.worker.None? && !result.Fenced?
    ensures (&& Resolved(Op(old(directory.world)))
             && Unstarted(old(directory.world).worker.value.pc.failed, Op(old(directory.world)))
             && Removable(directory.past[swept], answers.stuck) && answers.write == Clean) ==> result.Retired?
    ensures Answered(directory.world, old(directory.world), report, result, outermost)
    ensures result.Retired? && report.Some? ==> report.value.exit == ReturnExit(answers.late, outermost)
    ensures result.Retired? ==>
              && Resolved(Op(old(directory.world)))
              && Unstarted(old(directory.world).worker.value.pc.failed, Op(old(directory.world)))
              && directory.world.journal == Some(old(directory.world).journal.value.(operation := None))
              && SweptTo(directory.world, Op(old(directory.world)).artifacts, |Op(old(directory.world)).artifacts|, [])
    ensures result.KeptFenced? ==>
              && old(directory.world).worker.value.pc.failed
              && HasOperation(directory.world) && Op(directory.world).composite && Op(directory.world).started
  {
    directory.Facts();
    directory.Interfere();
    swept := |directory.past| - 1;
    directory.Facts();
    if Resolved(Op(directory.world)) {
      result, report := SweepAndRetire(directory, outermost, answers);
    } else {
      result := LeaveUnresolved(directory);
      report := None;
    }
  }

  /** Unresolved work stays as it is. */
  method LeaveUnresolved(directory: SessionDirectory) returns (result: Finish)
    requires directory.Valid() && directory.world.worker.Some? && directory.world.worker.value.pc.Finishing?
    requires HasOperation(directory.world)
    modifies directory
    ensures directory.Valid() && directory.Continues()
    ensures directory.world.worker.None? && directory.world.journal == old(directory.world).journal
    ensures directory.world.log == old(directory.world).log && !result.Retired? && !result.Fenced?
    ensures result.KeptFenced? <==>
              !Unstarted(old(directory.world).worker.value.pc.failed, Op(old(directory.world)))
  {
    result := if Unstarted(directory.world.worker.value.pc.failed, Op(directory.world)) then NotRetired else KeptFenced;
    directory.TakeEntry(WorkerGone);
  }

  /** The ownership check of `_finish` fails: the fence is labelled `not_executed`, anything else `unknown`. */
  method Refuse(directory: SessionDirectory, outermost: bool) returns (result: Finish, report: Option<Report>)
    requires directory.Valid() && directory.world.worker.Some?
    requires directory.world.worker.value.pc.Holding? || directory.world.worker.value.pc.Returning?
    modifies directory
    ensures directory.Valid() && directory.Continues()
    ensures directory.world.worker.None? && directory.world.journal == old(directory.world).journal
    ensures result == if SeesFence(old(directory.world)) then Fenced else NotRetired
    ensures Answered(directory.world, old(directory.world), report, result, outermost)
    ensures result.Fenced? && report.Some? ==> report.value.exit == FencedWhileFinishing
  {
    var pc := directory.world.worker.value.pc;
    if SeesFence(directory.world) {
      result := Fenced;
      report := RaiseAtFence(directory);
    } else {
      result := NotRetired;
      if pc.Holding? {
        directory.TakeEntry(WorkerGone);
        report := None;
      } else {
        directory.TakeFinish(FinishFails);
        report := Some(Report(pc.request, Raised, Unknown));
      }
    }
  }

  /** The exit meets the fence; a response that was to be returned belongs to a request that ran. */
  method RaiseAtFence(directory: SessionDirectory) returns (report: Option<Report>)
    requires directory.Valid() && SeesFence(directory.world)
    requires directory.world.worker.value.pc.Holding? || directory.world.worker.value.pc.Returning?
    modifies directory
    ensures directory.Valid() && directory.Continues()
    ensures directory.world.worker.None? && directory.world.journal == old(directory.world).journal
    ensures old(directory.world).log.reports <= directory.world.log.reports
    ensures var pc := old(directory.world).worker.value.pc;
            && (report.Some? <==> pc.Returning?)
            && (report.Some? ==>
                  && report.value == Report(pc.request, FencedWhileFinishing, NotExecuted)
                  && report.value in directory.world.log.reports && directory.world.log.executed[pc.request] == 1)
  {
    var pc := directory.world.worker.value.pc;
    if pc.Holding? {
      directory.TakeEntry(WorkerGone);
      return None;
    }
    directory.Facts();
    directory.TakeFinish(FinishFenced);
    report := Some(Report(pc.request, FencedWhileFinishing, NotExecuted));
  }

  /** The cleanup of `_finish`; files that could not be removed stay in the journal. */
  method SweepAndRetire(directory: SessionDirectory, outermost: bool, answers: FinishAnswers)
    returns (result: Finish, report: Option<Report>)
    requires directory.Valid() && directory.world.worker.Some? && directory.world.worker.value.pc.Finishing?
    requires directory.world.guard == ByWorker && HasOperation(directory.world) && Resolved(Op(directory.world))
    requires var pc := directory.world.worker.value.pc;
             pc.answer.Some? ==> !pc.failed && Op(directory.world).artifacts == []
    modifies directory
    ensures directory.Valid() && directory.Continues()
    ensures directory.world.worker.None? && !result.Fenced?
    ensures (&& Unstarted(old(directory.world).worker.value.pc.failed, Op(old(directory.world)))
             && Removable(old(directory.world), answers.stuck) && answers.write == Clean) ==> result.Retired?
    ensures Answered(directory.world, old(directory.world), report, result, outermost)
    ensures result.Retired? && report.Some? ==> report.value.exit == ReturnExit(answers.late, outermost)
    ensures result.Retired? ==>
              && Unstarted(old(directory.world).worker.value.pc.failed, Op(old(directory.world)))
              && directory.world.journal == Some(old(directory.world).journal.value.(operation := None))
              && SweptTo(directory.world, Op(old(directory.world)).artifacts, |Op(old(directory.world)).artifacts|, [])
    ensures result.KeptFenced? ==>
              && old(directory.world).worker.value.pc.failed
              && HasOperation(directory.world) && Op(directory.world).composite && Op(directory.world).started
  {
    var kept := CleanupScreenshots(directory, answers.stuck);
    if kept != [] {
      assert kept[0] in kept;
      KeepUnremoved(directory, kept, answers.kept);
      return NotRetired, None;
    }
    result, report := Retire(directory, outermost, answers);
  }

  /** The journal write after a failed cleanup: exactly what is left stays listed. */
  method KeepUnremoved(directory: SessionDirectory, kept: seq<Artifact>, fault: Fault)
    requires directory.Valid() && StagingEnabled(directory.world, SweepFailed(kept, fault))
    modifies directory
    ensures directory.Valid() && directory.Continues()
    ensures directory.world.worker.None? && directory.world.log == old(directory.world).log
    ensures fault == Clean ==>
              && HasOperation(directory.world) && Op(directory.world).artifacts == kept
              && Op(directory.world).(artifacts := []) == Op(old(directory.world)).(artifacts := [])
  {
    directory.TakeStaging(SweepFailed(kept, fault));
  }

  /** The last journal write of `_finish`, and its restoration when the write is not confirmed durable. */
  method Retire(directory: SessionDirectory, outermost: bool, answers: FinishAnswers)
    returns (result: Finish, report: Option<Report>)
    requires directory.Valid() && directory.world.worker.Some? && directory.world.worker.value.pc.Finishing?
    requires HasOperation(directory.world) && Resolved(Op(directory.world))
    requires directory.world.worker.value.pc.answer.Some? ==> !directory.world.worker.value.pc.failed
    modifies directory
    ensures directory.Valid() && directory.Continues()
    ensures directory.world.worker.None? && !result.Fenced?
    ensures Answered(directory.world, old(directory.world), report, result, outermost)
    ensures result.Retired? && report.Some? ==> report.value.exit == ReturnExit(answers.late, outermost)
    ensures var o := Op(old(directory.world));
            var failed := old(directory.world).worker.value.pc.failed;
            && (result.KeptFenced? <==> !Unstarted(failed, o))
            && (result.Retired? <==> Unstarted(failed, o) && answers.write == Clean)
            && (result.Retired? ==>
                  && directory.world.staging == old(directory.world).staging
                  && directory.world.journal == Some(old(directory.world).journal.value.(operation := None)))
            && (result.NotRetired? && answers.restore == Clean ==>
                  directory.world.journal == LeftUncertain(old(directory.world)))
            && (result.KeptFenced? ==>
                  && HasOperation(directory.world) && Op(directory.world).(artifacts := []) == o.(artifacts := [])
                  && (answers.kept == Clean ==> Op(directory.world).artifacts == []))
  {
    if Unstarted(directory.world.worker.value.pc.failed, Op(directory.world)) {
      var exit := ReturnExit(answers.late, outermost);
      if answers.write == Clean {
        result := Retired;
        report := DropOperation(directory, exit);
      } else {
        result := NotRetired;
        report := FailToDrop(directory, exit, answers.write, answers.restore);
      }
    } else {
      directory.TakeFinish(FinishKeep(answers.kept));
      result, report := KeptFenced, None;
    }
  }

  /** The journal with the operation of `w` marked uncertain and without files. */
  function LeftUncertain(w: World): Option<Journal>
    requires HasOperation(w)
  {
    Some(w.journal.value.(operation := Some(Op(w).(uncertain := true, artifacts := []))))
  }

  /** The journal write that retires the operation; `exit` is how the call ends. */
  method DropOperation(directory: SessionDirectory, exit: Exit) returns (report: Option<Report>)
    requires directory.Valid() && directory.world.worker.Some? && directory.world.worker.value.pc.Finishing?
    requires HasOperation(directory.world) && Resolved(Op(directory.world))
    requires Unstarted(directory.world.worker.value.pc.failed, Op(directory.world)) && Returns(exit)
    modifies directory
    ensures directory.Valid() && directory.Continues()
    ensures directory.world.worker.None?
    ensures Answered(directory.world, old(directory.world), report, Retired, exit == LateExit)
    ensures report.Some? ==> report.value.exit == exit
    ensures directory.world.staging == old(directory.world).staging
    ensures directory.world.journal == Some(old(directory.world).journal.value.(operation := None))
  {
    var answer := directory.world.worker.value.pc.answer;
    directory.TakeFinish(FinishRetire(Clean, exit));
    report := if answer.None? then None else Some(AnswerReport(answer.value, exit));
  }

  /** That write fails, before or after it took effect: the entry is restored. */
  method FailToDrop(directory: SessionDirectory, exit: Exit, write: Fault, restore: Fault)
    returns (report: Option<Report>)
    requires directory.Valid() && directory.world.worker.Some? && directory.world.worker.value.pc.Finishing?
    requires HasOperation(directory.world) && Resolved(Op(directory.world))
    requires Unstarted(directory.world.worker.value.pc.failed, Op(directory.world)) && Returns(exit) && write != Clean
    modifies directory
    ensures directory.Valid() && directory.Continues()
    ensures directory.world.worker.None?
    ensures Answered(directory.world, old(directory.world), report, NotRetired, exit == LateExit)
    ensures restore == Clean ==> directory.world.journal == LeftUncertain(old(directory.world))
  {
    directory.TakeFinish(FinishRetire(write, exit));
    report := RestoreEntry(directory, restore);
  }

  /** The entry comes back, marked uncertain; the error of the first write is raised. */
  method RestoreEntry(directory: SessionDirectory, restore: Fault) returns (report: Option<Report>)
    requires directory.Valid() && directory.world.worker.Some? && directory.world.worker.value.pc.FinishUndo?
    modifies directory
    ensures directory.Valid() && directory.Continues()
    ensures directory.world.worker.None?
    ensures old(directory.world).log.reports <= directory.world.log.reports
    ensures restore == Clean ==>
              && old(directory.world).journal.Some?
              && directory.world.journal == Some(old(directory.world).journal.value.(operation :=
                   Some(old(directory.world).worker.value.pc.operation.(uncertain := true))))
    ensures var answer := old(directory.world).worker.value.pc.answer;
            && (report.Some? <==> answer.Some?)
            && (report.Some? ==>
                  && report.value == Report(answer.value.request, Raised, Unknown)
                  && report.value in directory.world.log.reports)
  {
    directory.Facts();
    var answer := directory.world.worker.value.pc.answer;
    directory.Interfere();
    directory.TakeFinish(FinishRestore(restore));
    report := if answer.None? then None else Some(AnswerReport(answer.value, Raised));
  }

  // ----- Recovery -----

  /** What recovery can rely on across the steps of workers, bridge and outside programs. */
  ghost predicate LeftToRecovery(w: World, v: World) {
    && v.journal == w.journal && v.recovery == w.recovery && v.removed == w.removed
    && (w.guard == ByRecovery ==> v.guard == ByRecovery)
    && (w.bridge.Dead? ==> v.bridge.Dead?)
  }

  lemma FencedStepLeavesRecovery(w: World, s: Step)
    requires Inv(w) && Enabled(w, s) && !s.OfRecovery? && IsFenced(w) && w.recovery.Some?
    ensures LeftToRecovery(w, Apply(w, s))
  {
    FenceHolds(w, s);
    match s
    case OfBridge(t) => BridgeFrame(w, t);
    case OfEntry(t) =>
      EntryFrame(w, t);
      EntryLeavesRecovery(w, t);
    case OfStaging(t) =>
      StagingFrame(w, t);
      FenceStopsStaging(w, t);
    case OfPublish(t) => FenceStopsPublish(w, t);
    case OfPoll(t) =>
      PollFrame(w, t);
      PollLeavesRecovery(w, t);
    case OfWithdraw(t) => FenceStopsWithdraw(w, t);
    case OfMark(t) => FenceStopsMark(w, t);
    case OfFinish(t) => FenceStopsFinish(w, t);
  }

  lemma EntryLeavesRecovery(w: World, s: EntryStep)
    requires EntryEnabled(w, s) && Locks(w) && IsFenced(w)
    ensures var v := EntryApply(w, s);
            v.recovery == w.recovery && v.removed == w.removed && (w.guard == ByRecovery ==> v.guard == ByRecovery)
  { }

  lemma PollLeavesRecovery(w: World, s: PollStep)
    requires PollEnabled(w, s)
    ensures var v := PollApply(w, s);
            v.recovery == w.recovery && v.removed == w.removed && v.guard == w.guard
  { }

  /** Whatever everybody else does before recovery's next effect. */
  method WorkersInterfere(directory: SessionDirectory)
    requires directory.Valid() && IsFenced(directory.world) && directory.world.recovery.Some?
    modifies directory
    ensures directory.Valid() && directory.Continues()
    ensures LeftToRecovery(old(directory.world), directory.world)
  {
    var n: nat := *;
    while n > 0
      invariant directory.Valid() && directory.Continues()
      invariant LeftToRecovery(old(directory.world), directory.world)
    {
      var s: Step := *;
      if !s.OfRecovery? && Enabled(directory.world, s) {
        directory.Facts();
        FencedStepLeavesRecovery(directory.world, s);
        directory.Take(s);
      }
      n := n - 1;
    }
  }

  /** The session is retired: nothing is left in the journal, and nothing that did not run yet ever will. */
  ghost predicate IsRetired(w: World) {
    && w.journal.Some? && w.journal.value.state == Stopped && !HasOperation(w)
    && w.bridge.Dead? && forall r :: w.log.executed[r] == 0 ==> !MayExecute(w, r)
  }

  /** A recovery is under way over the journal it fenced, and its process group is not known to be gone yet. */
  predicate Recovering(w: World) {
    && IsFenced(w) && w.recovery.Some? && w.recovery.value.Fencing?
    && w.recovery.value.generation == w.journal.value.generation
  }

  /** The start of `recovery`: fence the session at once, without waiting for the operation lock. */
  method Fence(directory: SessionDirectory, fault: Fault) returns (fenced: bool)
    requires directory.Valid()
    modifies directory
    ensures directory.Valid() && directory.Continues()
    ensures IsFenced(old(directory.world)) ==> IsFenced(directory.world)
    ensures fenced <==>
              && old(directory.world).recovery.None? && old(directory.world).guard == Free
              && !old(directory.world).removed && fault == Clean
    ensures fenced ==> Recovering(directory.world)
    ensures fenced && HasOperation(old(directory.world)) ==>
              HasOperation(directory.world) && Op(directory.world) == Op(old(directory.world))
  {
    if directory.world.recovery.Some? || directory.world.guard != Free || directory.world.removed {
      return false;
    }
    directory.TakeRecovery(RecoverBegin(fault));
    fenced := fault == Clean;
  }

  /** What the system answers while a recovery retires the session. */
  datatype RetireAnswers = RetireAnswers(stuck: set<Artifact>, kept: Fault, write: Fault)

  /** Nothing stands against the end of a recovery that holds the state lock. */
  ghost predicate Endable(w: World, answers: RetireAnswers) {
    (HasOperation(w) ==> Removable(w, answers.stuck)) && answers.write == Clean
  }

  /**
    The rest of `stop` once the process group is known to be gone. The state lock is looked at in the state
    `locked`, the cleanup starts in `swept`.
   */
  method Retirement(directory: SessionDirectory, answers: RetireAnswers)
    returns (retired: bool, ghost locked: nat, ghost swept: nat)
    requires directory.Valid() && Recovering(directory.world)
    modifies directory
    ensures directory.Valid() && directory.Continues() && directory.Since(locked) && directory.Since(swept)
    ensures IsFenced(directory.world) && (retired ==> IsRetired(directory.world))
    ensures directory.past[locked].guard == Free && Endable(directory.past[swept], answers) ==> retired
  {
    directory.TakeRecovery(Terminated);
    WorkersInterfere(directory);
    locked, swept := |directory.past| - 1, |directory.past| - 1;
    if directory.world.guard != Free {
      directory.TakeRecovery(RecoveryGone);
      return false, locked, swept;
    }
    directory.TakeRecovery(RecoverEnter);
    WorkersInterfere(directory);
    swept := |directory.past| - 1;
    retired := FinishRecovery(directory, answers);
  }

  /** `Recovery.finish` under the state lock. */
  method FinishRecovery(directory: SessionDirectory, answers: RetireAnswers) returns (retired: bool)
    requires directory.Valid() && directory.world.guard == ByRecovery
    requires IsFenced(directory.world)
    modifies directory
    ensures directory.Valid() && directory.Continues()
    ensures IsFenced(directory.world) && (retired ==> IsRetired(directory.world))
    ensures Endable(old(directory.world), answers) ==> retired
  {
    directory.Facts();
    if HasOperation(directory.world) {
      var kept := CleanupScreenshots(directory, answers.stuck);
      if kept != [] {
        KeepForRecovery(directory, kept, answers.kept);
        return false;
      }
    }
    directory.TakeRecovery(RecoverFinish(answers.write));
    retired := answers.write == Clean;
    DeadSessionRunsNothing(directory);
  }

  /** The journal write after a failed cleanup of a recovery: what is left stays listed. */
  method KeepForRecovery(directory: SessionDirectory, kept: seq<Artifact>, fault: Fault)
    requires directory.Valid() && IsFenced(directory.world)
    requires RecoveryEnabled(directory.world, RecoverSweepFailed(kept, fault))
    modifies directory
    ensures directory.Valid() && directory.Continues() && IsFenced(directory.world)
    ensures fault == Clean ==>
              && HasOperation(directory.world) && Op(directory.world).artifacts == kept
              && Op(directory.world).(artifacts := []) == Op(old(directory.world)).(artifacts := [])
  {
    directory.TakeRecovery(RecoverSweepFailed(kept, fault));
  }

  lemma DeadSessionRunsNothing(directory: SessionDirectory)
    requires directory.Valid()
    ensures directory.world.bridge.Dead? ==>
              forall r :: directory.world.log.executed[r] == 0 ==> !MayExecute(directory.world, r)
    ensures directory.world.journal.Some? && directory.world.journal.value.state == Stopped ==>
              directory.world.bridge.Dead?
  {
    directory.Facts();
    forall r | directory.world.bridge.Dead? && directory.world.log.executed[r] == 0
      ensures !MayExecute(directory.world, r)
    {
      DeadBridgeRunsNothing(directory.world, r);
    }
  }
}
