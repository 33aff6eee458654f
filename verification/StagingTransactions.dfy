/** The other methods of `Transaction`: screenshot staging, uncertainty marks, startup and rollback. */
module StagingTransactions {
  import opened Basics
  import opened BridgeReply
  import opened TransactionWorld
  import opened TransactionProtocol
  import opened TransactionInvariant
  import opened TransactionArtifacts
  import opened SessionTransactions

  method TakeMark(directory: SessionDirectory, s: MarkStep)
    requires directory.Valid() && MarkEnabled(directory.world, s)
    modifies directory
    ensures directory.Valid() && directory.run == old(directory.run) + [OfMark(s)]
    ensures directory.past == old(directory.past) + [directory.world]
    ensures directory.world == MarkApply(old(directory.world), s)
  {
    directory.Take(OfMark(s));
  }

  /** How a reservation ends: journaled, taken back, or left behind with the journal asked to remember it. */
  datatype Stage = Refused | Staged(artifact: Artifact) | TakenBack | LeftBehind(artifact: Artifact, recorded: bool)

  /** The journal entry is what it was with exactly this artifact added. */
  ghost predicate OnlyAdded(w: World, before: World, artifact: Artifact) {
    && IsReady(before) && HasOperation(before) && IsReady(w)
    && w.journal == Some(before.journal.value.(operation :=
                           Some(Op(before).(artifacts := Op(before).artifacts + [artifact]))))
  }

  predicate IsThere(w: World, artifact: Artifact) {
    artifact.path in w.staging && w.staging[artifact.path] == artifact.inode
  }

  predicate Recorded(w: World, artifact: Artifact) {
    HasOperation(w) && artifact in Op(w).artifacts
  }

  /** The entry lists this artifact now, besides all that it listed before and no other. */
  ghost predicate RecordedAlso(w: World, before: World, artifact: Artifact)
    requires HasOperation(before)
  {
    && HasOperation(w) && Op(w).(artifacts := []) == Op(before).(artifacts := [])
    && forall a :: a in Op(w).artifacts <==> a in Op(before).artifacts || a == artifact
  }

  /** What the system answers while a file is reserved. */
  datatype StageAnswers = StageAnswers(names: seq<nat>, journal: Fault, expired: bool, stuck: bool, keep: Fault)

  /** The worker owns a ready session whose state lock is free, and no command of its own may still be writing. */
  predicate FreeToAct(w: World) {
    && w.guard == Free && w.worker.Some? && w.journal.Some? && w.journal.value.state == Ready
    && w.journal.value.generation == w.worker.value.generation
    && w.journal.value.operation.Some?
    && var o := w.journal.value.operation.value;
       o.id == w.worker.value.id && o.pending.None? && !o.uncertain
  }

  /** The first name of a list that no file has; the drawn names are unique in practice. */
  function FirstFree(names: seq<nat>, staging: map<nat, nat>): (first: Option<nat>)
    ensures first.Some? ==> first.value in names && first.value !in staging
    ensures first.None? ==> forall n :: n in names ==> n in staging
  {
    if names == [] then None
    else if names[0] !in staging then Some(names[0])
    else FirstFree(names[1..], staging)
  }

  /** How a reservation must end, by the state it was begun in and the answers. */
  function StageEnd(entered: World, answers: StageAnswers): (end: Option<bool>)
  {
    if !FreeToAct(entered) || FirstFree(answers.names, entered.staging).None? then None
    else Some(answers.journal == Clean && !answers.expired)
  }

  /**
    `stage_screenshot`: reserve a file nobody had, and journal it before its path can reach any writer. A file
    that is not journaled in time is removed again; only one that cannot be removed stays, and then in the journal.
    Whether the worker may stage is decided in the state `entered`.
   */
  method StageScreenshot(directory: SessionDirectory, answers: StageAnswers) returns (stage: Stage, ghost entered: nat)
    requires directory.Valid() && At(directory.world, Holding)
    modifies directory
    ensures directory.Valid() && directory.Continues() && At(directory.world, Holding) && directory.Since(entered)
    ensures stage.Refused? <==> StageEnd(directory.past[entered], answers).None?
    ensures stage.Staged? <==> StageEnd(directory.past[entered], answers) == Some(true)
    ensures stage.Staged? ==>
              && OnlyAdded(directory.world, old(directory.world), stage.artifact)
              && stage.artifact.request.None? && stage.artifact.inode >= old(directory.world).next.inode
              && stage.artifact.path in answers.names
    ensures stage.LeftBehind? && stage.recorded ==>
              && HasOperation(old(directory.world))
              && RecordedAlso(directory.world, old(directory.world), stage.artifact)
  {
    directory.Facts();
    directory.Interfere();
    entered := |directory.past| - 1;
    if directory.world.guard != Free || !Owned(directory.world) || !Resolved(Op(directory.world)) {
      return Stage.Refused, entered;
    }
    var path := FindFree(answers.names, directory.world.staging);
    if path.None? {
      return Stage.Refused, entered;
    }
    directory.TakeStaging(StageCreate(path.value));
    stage := JournalStaged(directory, answers);
  }

  /** `os.open` with `O_EXCL` until it succeeds. */
  method FindFree(names: seq<nat>, staging: map<nat, nat>) returns (path: Option<nat>)
    ensures path == FirstFree(names, staging)
  {
    assert names[0..] == names;
    for i := 0 to |names|
      invariant FirstFree(names, staging) == FirstFree(names[i..], staging)
    {
      if names[i] !in staging {
        return Some(names[i]);
      }
      assert names[i..][1..] == names[i + 1..];
    }
    return None;
  }

  /** The journal write of `stage_screenshot`, and the deadline check behind it. */
  method JournalStaged(directory: SessionDirectory, answers: StageAnswers) returns (stage: Stage)
    requires directory.Valid() && directory.world.worker.Some? && directory.world.worker.value.pc.Staging?
    modifies directory
    ensures directory.Valid() && directory.Continues() && At(directory.world, Holding)
    ensures !stage.Refused? && (stage.Staged? <==> answers.journal == Clean && !answers.expired)
    ensures var created := old(directory.world).worker.value.pc.artifact;
            && (stage.Staged? ==>
                  stage.artifact == created && OnlyAdded(directory.world, old(directory.world), created))
            && (stage.TakenBack? ==> !IsThere(directory.world, created))
            && (stage.LeftBehind? ==>
                  && stage.artifact == created && HasOperation(old(directory.world))
                  && (stage.recorded ==> RecordedAlso(directory.world, old(directory.world), created)))
  {
    directory.Facts();
    var created := directory.world.worker.value.pc.artifact;
    directory.Interfere();
    directory.TakeStaging(StageCommit(answers.journal, answers.expired));
    if answers.journal == Clean && !answers.expired {
      return Staged(created);
    }
    stage := TakeBack(directory, answers.stuck, answers.keep);
  }

  /** The error path: no command can name the file yet, so it is removed, or else remembered. */
  method TakeBack(directory: SessionDirectory, stuck: bool, keep: Fault) returns (stage: Stage)
    requires directory.Valid() && directory.world.worker.Some? && directory.world.worker.value.pc.Unstaging?
    modifies directory
    ensures directory.Valid() && directory.Continues() && At(directory.world, Holding)
    ensures var created := old(directory.world).worker.value.pc.artifact;
            || (stage.TakenBack? && !stuck && !IsThere(directory.world, created))
            || (stage.LeftBehind? && stage.artifact == created && stage.recorded == (keep == Clean)
                && (stuck || !IsThere(directory.world, created))
                && HasOperation(old(directory.world))
                && (stage.recorded ==> RecordedAlso(directory.world, old(directory.world), created)))
  {
    directory.Facts();
    var created := directory.world.worker.value.pc.artifact;
    directory.Interfere();
    if !stuck && created.path in directory.world.staging && directory.world.staging[created.path] == created.inode {
      directory.TakeStaging(Unstage);
      return TakenBack;
    }
    LeaveBehind(directory, keep);
    stage := LeftBehind(created, keep == Clean);
  }

  /** The file could not be removed: the journal is asked to list it, besides all that it lists already. */
  method LeaveBehind(directory: SessionDirectory, keep: Fault)
    requires directory.Valid() && directory.world.worker.Some? && directory.world.worker.value.pc.Unstaging?
    requires HasOperation(directory.world)
    modifies directory
    ensures directory.Valid() && directory.Continues() && At(directory.world, Holding)
    ensures directory.world.staging == old(directory.world).staging
    ensures keep == Clean ==>
              RecordedAlso(directory.world, old(directory.world), old(directory.world).worker.value.pc.artifact)
  {
    directory.TakeStaging(UnstageFails(keep));
  }

  /**
    `publish_screenshot` and `read_screenshot` up to their file: exactly the journaled inode, and only while
    no request at all may still be writing. `named` is the named destination, which takes the file away;
    otherwise it is linked to a fresh name. Both are decided in the state `entered`.
   */
  method PublishScreenshot(directory: SessionDirectory, artifact: Artifact, named: bool)
    returns (published: bool, ghost entered: nat)
    requires directory.Valid() && At(directory.world, Holding)
    modifies directory
    ensures directory.Valid() && directory.Continues() && At(directory.world, Holding) && directory.Since(entered)
    ensures published <==>
              && FreeToAct(directory.past[entered]) && Recorded(directory.past[entered], artifact)
              && IsThere(directory.past[entered], artifact)
    ensures published ==>
              && HasOperation(directory.world) && artifact in Op(directory.world).artifacts
              && Resolved(Op(directory.world)) && (forall r :: !InFlight(directory.world, r))
              && directory.world.staging == (if named then directory.past[entered].staging - {artifact.path}
                                             else directory.past[entered].staging)
  {
    directory.Facts();
    directory.Interfere();
    entered := |directory.past| - 1;
    directory.Facts();
    if directory.world.guard != Free || !Owned(directory.world) || !Resolved(Op(directory.world))
       || artifact !in Op(directory.world).artifacts
       || artifact.path !in directory.world.staging || directory.world.staging[artifact.path] != artifact.inode {
      return false, entered;
    }
    directory.TakeStaging(PublishShot(artifact, named));
    published := true;
  }

  /** `mark_uncertain`: from then on the operation is neither reclaimed nor retired without recovery. */
  method MarkOperationUncertain(directory: SessionDirectory, fault: Fault) returns (marked: bool, ghost entered: nat)
    requires directory.Valid() && At(directory.world, Holding)
    modifies directory
    ensures directory.Valid() && directory.Continues() && At(directory.world, Holding) && directory.Since(entered)
    ensures marked <==>
              directory.past[entered].guard == Free && Owned(directory.past[entered]) && fault == Clean
    ensures marked ==>
              && Owned(directory.world) && Op(directory.world).uncertain && !Resolved(Op(directory.world))
              && Op(directory.world) == Op(directory.past[entered]).(uncertain := true)
              && (Op(directory.world).pending.None? ==> !Reclaimable(Op(directory.world), directory.world.response))
  {
    directory.Interfere();
    entered := |directory.past| - 1;
    if directory.world.guard != Free || !Owned(directory.world) {
      return false, entered;
    }
    TakeMark(directory, MarkUncertain(fault));
    marked := fault == Clean;
  }

  /**
    `_nest`: a transaction inside this worker's own one. It may only make the operation a composite, and may only
    create what this worker itself reserved and has not started.
   */
  method EnterNested(directory: SessionDirectory, created: bool, composite: bool, fault: Fault)
    returns (nested: bool, ghost entered: nat)
    requires directory.Valid() && At(directory.world, Holding)
    modifies directory
    ensures directory.Valid() && directory.Continues() && At(directory.world, Holding) && directory.Since(entered)
    ensures nested <==> MayNest(directory.past[entered], created, composite, fault)
    ensures nested ==>
              && IsReady(directory.world) && HasOperation(directory.world) && HasOperation(directory.past[entered])
              && Op(directory.world).composite == (composite || Op(directory.past[entered]).composite)
              && Op(directory.world).(composite := false) == Op(directory.past[entered]).(composite := false)
  {
    directory.Interfere();
    entered := |directory.past| - 1;
    if directory.world.guard != Free || !Owned(directory.world)
       || (created && (!directory.world.worker.value.created || Op(directory.world).started)) {
      return false, entered;
    }
    nested := true;
    if composite && !Op(directory.world).composite {
      TakeMark(directory, Nest(fault));
      nested := fault == Clean;
    }
  }

  /** Nothing stands against a nested transaction. */
  ghost predicate MayNest(w: World, created: bool, composite: bool, fault: Fault) {
    && w.guard == Free && Owned(w) && (created ==> w.worker.value.created && !Op(w).started)
    && (composite && !Op(w).composite ==> fault == Clean)
  }

  /**
    `startup_guard` around the spawn: the journal says `started` before the emulator exists, so an
    emulator without that mark is never left behind.
   */
  method SpawnEmulator(directory: SessionDirectory, fault: Fault) returns (spawned: bool, ghost entered: nat)
    requires directory.Valid() && At(directory.world, Holding)
    modifies directory
    ensures directory.Valid() && directory.Continues() && At(directory.world, Holding) && directory.Since(entered)
    ensures spawned <==>
              && directory.past[entered].guard == Free && Owned(directory.past[entered])
              && old(directory.world).worker.value.created && directory.past[entered].bridge.NotStarted?
              && fault == Clean
    ensures spawned ==>
              && !directory.world.bridge.NotStarted?
              && (IsReady(directory.world) ==> HasOperation(directory.world) && Op(directory.world).started)
  {
    directory.Interfere();
    entered := |directory.past| - 1;
    if directory.world.guard != Free || !Owned(directory.world)
       || !directory.world.worker.value.created || !directory.world.bridge.NotStarted? {
      return false, entered;
    }
    TakeMark(directory, GuardStartup(fault));
    if fault != Clean {
      return false, entered;
    }
    Spawned(directory);
    spawned := true;
  }

  /** The guarded spawn; the identity of the process is registered before the guard ends. */
  method Spawned(directory: SessionDirectory)
    requires directory.Valid() && MarkEnabled(directory.world, Spawn)
    requires HasOperation(directory.world) && Op(directory.world).started && IsReady(directory.world)
    modifies directory
    ensures directory.Valid() && directory.Continues() && At(directory.world, Holding)
    ensures !directory.world.bridge.NotStarted?
    ensures IsReady(directory.world) ==> HasOperation(directory.world) && Op(directory.world).started
  {
    TakeMark(directory, Spawn);
    directory.Facts();
    directory.Interfere();
    TakeMark(directory, EndStartup);
  }

  datatype Removal = NotAllowed | Removed | Partial(recorded: bool)

  /** The directory is this worker's reservation, nothing was spawned or is unresolved, and no recovery is there. */
  predicate MayRollBack(w: World) {
    && FreeToAct(w) && w.recovery.None? && w.worker.value.created && w.bridge.NotStarted?
  }

  /**
    `rollback`: remove the directory this worker created, only while nothing was ever spawned, nothing is
    unresolved and no recovery holds the stop lock. A removal that fails on the way is recorded as uncertain
    work of this operation, which nobody reclaims. `failed` says what was gone when it failed.
   */
  method RollBack(directory: SessionDirectory, failed: Option<Gone>, fault: Fault)
    returns (removal: Removal, ghost entered: nat)
    requires directory.Valid() && At(directory.world, Holding)
    requires failed.Some? && failed.value.journal ==> failed.value.command && failed.value.response
    modifies directory
    ensures directory.Valid() && directory.Continues() && directory.Since(entered)
    ensures removal == (if !MayRollBack(directory.past[entered]) then NotAllowed
                        else if failed.None? then Removed else Partial(fault == Clean))
    ensures removal.Removed? ==>
              && directory.world.removed && directory.world.journal.None? && directory.world.worker.None?
              && directory.world.command.None? && directory.world.response.None?
              && old(directory.world).worker.value.created && directory.world.bridge.NotStarted?
    ensures !removal.Removed? ==> At(directory.world, Holding) && !directory.world.removed
    ensures removal.Partial? && removal.recorded ==>
              && Owned(directory.world) && Op(directory.world).uncertain
              && !Reclaimable(Op(directory.world), directory.world.response)
  {
    directory.Interfere();
    entered := |directory.past| - 1;
    directory.Facts();
    if directory.world.guard != Free || directory.world.recovery.Some? || !Owned(directory.world)
       || !directory.world.worker.value.created || !Resolved(Op(directory.world))
       || !directory.world.bridge.NotStarted? {
      return NotAllowed, entered;
    }
    if failed.Some? {
      RemovePartly(directory, failed.value, fault);
      removal := Partial(fault == Clean);
    } else {
      directory.TakeFinish(Rollback);
      removal := Removed;
    }
  }

  /** The removal stops somewhere; the journal, whether it was reached or not, is written once more. */
  method RemovePartly(directory: SessionDirectory, gone: Gone, fault: Fault)
    requires directory.Valid() && FinishEnabled(directory.world, RollbackFails(gone, fault))
    modifies directory
    ensures directory.Valid() && directory.Continues()
    ensures directory.world.worker == old(directory.world).worker
    ensures directory.world.removed == old(directory.world).removed
    ensures fault == Clean ==>
              directory.world.journal == Some(old(directory.world).journal.value.(operation :=
                Some(Op(old(directory.world)).(uncertain := true))))
  {
    directory.TakeFinish(RollbackFails(gone, fault));
  }
}
