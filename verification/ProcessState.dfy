/** `process_state`: what one inspection of a process may conclude about ownership and absence. */
module ProcessState {
  import opened Basics

  datatype Platform = Linux | Darwin | OtherPlatform

  /** A birth record. `wellFormed` stands for its version, platform and birth fields being as required. */
  datatype Identity = Identity(pid: int, pgid: int, sid: int, birth: nat, wellFormed: bool)

  /** The observing process itself. */
  datatype Self = Self(pid: int, pgrp: int)

  datatype State =
    | Alive
    | Dead
    | IdentityMismatch
    | IdentityUnverified
    | PermissionDenied
    | TerminationUnconfirmed

  /** The answer to `kill(pid, 0)` or `killpg(pid, 0)`. */
  datatype Presence = Present | NoSuchProcess | NotPermitted | OtherError

  datatype Inspection = Inspected(current: Identity, zombie: bool) | Vanished | Refused | Unreadable

  datatype Reaping = Reaped | NotAChild | ReapRefused | ReapFailed

  /** Darwin's birth and exit times of a process that is no longer listed. */
  datatype Lifetime = Lifetime(sameBirth: bool, exited: bool) | LifetimeRefused | LifetimeUnreadable

  /** Everything the operating system answers during one call. */
  datatype Probe = Probe(
    inspection: Inspection,
    process: Presence,
    group: Presence,
    reaping: Reaping,
    lifetime: Lifetime)

  predicate ValidPid(pid: int) {
    0 < pid <= 0x7FFFFFFF
  }

  predicate ValidIdentity(identity: Option<Identity>) {
    && identity.Some?
    && identity.value.wellFormed
    && ValidPid(identity.value.pid) && ValidPid(identity.value.pgid) && ValidPid(identity.value.sid)
  }

  predicate OwnedGroup(self: Self, pid: int, identity: Identity) {
    identity.pid == identity.pgid == identity.sid == pid && pid != self.pid && pid != self.pgrp
  }

  function GroupAbsence(probe: Probe): State {
    match probe.group
    case NoSuchProcess => Dead
    case NotPermitted => PermissionDenied
    case _ => TerminationUnconfirmed
  }

  /** `_inspection_failure`; `refused` says whether the failure was EPERM or EACCES. */
  function InspectionFailure(probe: Probe, refused: bool): State {
    match probe.process
    case NoSuchProcess => GroupAbsence(probe)
    case NotPermitted => PermissionDenied
    case OtherError => IdentityUnverified
    case Present => if refused then PermissionDenied else IdentityUnverified
  }

  /** Darwin omits zombies from its listing: check birth and exit before collecting the child. */
  function VanishedOnDarwin(probe: Probe): State {
    match probe.lifetime
    case LifetimeRefused => InspectionFailure(probe, true)
    case LifetimeUnreadable => InspectionFailure(probe, false)
    case Lifetime(sameBirth, exited) =>
      if !sameBirth then IdentityMismatch
      else if !exited then IdentityUnverified
      else if probe.reaping == ReapRefused then InspectionFailure(probe, true)
      else InspectionFailure(probe, false)
  }

  /** The checks made on a process that could be inspected. */
  function InspectedState(self: Self, pid: int, identity: Option<Identity>, reap: bool, probe: Probe): State
    requires probe.inspection.Inspected?
  {
    var current, zombie := probe.inspection.current, probe.inspection.zombie;
    if !ValidIdentity(identity) || !ValidIdentity(Some(current)) then IdentityUnverified
    else if current != identity.value || !OwnedGroup(self, pid, current) then IdentityMismatch
    else if !zombie then Alive
    else if !reap then GroupAbsence(probe)
    else
      match probe.reaping
      case ReapRefused => PermissionDenied
      case ReapFailed => TerminationUnconfirmed
      case _ => GroupAbsence(probe)
  }

  function StateOf(platform: Platform, self: Self, pid: int, identity: Option<Identity>, reap: bool, probe: Probe)
    : State
  {
    if platform == OtherPlatform || !ValidPid(pid) then IdentityUnverified
    else if ValidIdentity(identity) && !OwnedGroup(self, pid, identity.value) then IdentityMismatch
    else
      match probe.inspection
      case Inspected(_, _) => InspectedState(self, pid, identity, reap, probe)
      case Vanished =>
        if reap && ValidIdentity(identity) && platform == Darwin
        then VanishedOnDarwin(probe)
        else InspectionFailure(probe, false)
      case Refused => InspectionFailure(probe, true)
      case Unreadable => InspectionFailure(probe, false)
  }

  /** The process is the recorded one, in its own group, and has not exited. */
  predicate VerifiedAlive(platform: Platform, self: Self, pid: int, identity: Option<Identity>, probe: Probe) {
    && platform != OtherPlatform && ValidPid(pid)
    && ValidIdentity(identity)
    && OwnedGroup(self, pid, identity.value)
    && probe.inspection == Inspected(identity.value, false)
  }

  /** `alive` is reported exactly for a verified, running process; a record without a birth never is. */
  lemma AliveExactlyWhenVerified(platform: Platform, self: Self, pid: int, identity: Option<Identity>, reap: bool,
                                 probe: Probe)
    ensures StateOf(platform, self, pid, identity, reap, probe) == Alive
       <==> VerifiedAlive(platform, self, pid, identity, probe)
  {
    if probe.inspection.Inspected? && ValidIdentity(identity) {
      assert identity == Some(identity.value);
    }
  }

  /**
   * `dead` always means the whole group is gone, and that either the leader is gone too or it is the
   * recorded process and a zombie. A missing inspection alone never counts as absence.
   */
  lemma DeadMeansGroupGone(platform: Platform, self: Self, pid: int, identity: Option<Identity>, reap: bool,
                           probe: Probe)
    requires StateOf(platform, self, pid, identity, reap, probe) == Dead
    ensures probe.group == NoSuchProcess
    ensures probe.process == NoSuchProcess || (identity.Some? && probe.inspection == Inspected(identity.value, true))
  {
    if probe.inspection.Inspected? {
      assert ValidIdentity(identity);
    }
  }

  /** The record is of the process itself: well formed, and the leader of its own group and session. */
  predicate Recordable(self: Self, pid: int, identity: Option<Identity>) {
    ValidIdentity(identity) && OwnedGroup(self, pid, identity.value)
  }

  /**
   * The other codes say why nothing stronger is known. A mismatch is another process than the recorded one, or a
   * record that no process of this kind can have; a permission problem is a refused question; an unconfirmed end
   * is a process that exited, is gone or cannot be collected while its group is not known to be gone.
   */
  lemma CodesExplained(platform: Platform, self: Self, pid: int, identity: Option<Identity>, reap: bool,
                       probe: Probe)
    ensures var state := StateOf(platform, self, pid, identity, reap, probe);
            && (state == IdentityMismatch ==>
                  || !Recordable(self, pid, identity)
                  || (probe.inspection.Inspected? && probe.inspection.current != identity.value)
                  || (probe.inspection.Vanished? && probe.lifetime.Lifetime? && !probe.lifetime.sameBirth))
            && (state == PermissionDenied ==>
                  || probe.inspection.Refused? || probe.process.NotPermitted? || probe.group.NotPermitted?
                  || probe.reaping.ReapRefused? || probe.lifetime.LifetimeRefused?)
            && (state == TerminationUnconfirmed ==>
                  && (probe.group.Present? || probe.group.OtherError? || probe.reaping.ReapFailed?)
                  && (probe.process.NoSuchProcess? || probe.inspection == Inspected(identity.value, true)))
  {
    if probe.inspection.Inspected? && ValidIdentity(identity) {
      assert identity == Some(identity.value);
    }
  }

  /** A process other than the recorded one, at a pid with a good record, is always told as a mismatch. */
  lemma StrangerIsAMismatch(platform: Platform, self: Self, pid: int, identity: Option<Identity>, reap: bool,
                            probe: Probe)
    requires platform != OtherPlatform && ValidPid(pid) && ValidIdentity(identity)
    requires probe.inspection.Inspected? && ValidIdentity(Some(probe.inspection.current))
    ensures StateOf(platform, self, pid, identity, reap, probe) == IdentityMismatch
       <==> probe.inspection.current != identity.value || !OwnedGroup(self, pid, identity.value)
  {
    assert identity == Some(identity.value);
  }

  /** A process that cannot be inspected is never told to be alive, and is gone only when its group is. */
  lemma UninspectedIsDeadExactly(platform: Platform, self: Self, pid: int, identity: Option<Identity>, probe: Probe)
    requires !probe.inspection.Inspected?
    ensures StateOf(platform, self, pid, identity, false, probe) != Alive
    ensures StateOf(platform, self, pid, identity, false, probe) == Dead
       <==> && platform != OtherPlatform && ValidPid(pid)
            && (ValidIdentity(identity) ==> OwnedGroup(self, pid, identity.value))
            && probe.process == NoSuchProcess && probe.group == NoSuchProcess
  { }
}
