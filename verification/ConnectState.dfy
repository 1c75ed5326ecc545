// What OR3 Connect keeps on disk, and the invariants its durable state must satisfy at every moment.
module ConnectState {
  import opened Wrappers
  import opened ConnectService

  type Path = string

  // The persisted setup stages; Blank is a record written before stages existed.
  datatype Stage = Blank | Authorized | LocalConfigured | ServiceInstalling | Installed | Online | CleanupPending

  datatype Driver = Local | Runs

  // Which tunnel artifacts a connection record names.
  datatype TunnelRef = NoTunnel | TokenTunnel | LocalTunnel

  // Which tunnel artifacts are on disk.
  datatype TunnelFiles = TunnelFiles(token: bool, config: bool, credentials: bool)

  datatype Runtime = NoRuntime | OpenClaw | Hermes

  // What a connection record says about the connection itself, fixed when it is authorized except that
  // an update fills in the tunnel reference.
  datatype Link = Link(
    driver: Driver,
    runtime: Runtime,
    terminalOnly: bool,
    tunnel: TunnelRef,
    checkpoint: Option<Checkpoint>)

  // PreviousService and AppliedService.
  datatype Checkpoint = Checkpoint(previous: ServiceSettings, applied: ServiceSettings)

  // The connection record: the connection, the setup stage it has reached, and the undo flags
  // (Installed, RuntimeConfigRestored, CloudRevoked) that steer cleanup.
  datatype State = State(link: Link, stage: Stage, installed: bool, restored: bool, revoked: bool)

  // state.json, absent or holding a record.
  datatype StateFile = NoState | Saved(state: State)

  datatype File = File(mode: nat, body: string)

  datatype SourceCopy = SourceCopy(path: Path, file: File)

  // The write-ahead backup of a runtime's configuration, with the patched source once one is recorded.
  datatype Backup = Backup(runtime: Runtime, configPath: Path, config: Option<File>, source: Option<SourceCopy>)

  // Which effects of the current enrollment are known to have succeeded. What a driver sets up before
  // local_configured is the local credential and the service settings (Local), or the runtime's
  // configuration and its local verification (Runs). A new installation makes an earlier probe void.
  datatype Facts = Facts(credentialSet: bool, settingsProven: bool, installOk: bool, probeOk: bool)

  const NO_FACTS := Facts(false, false, false, false)

  function At(files: map<Path, File>, p: Path): Option<File> {
    if p in files then Some(files[p]) else None
  }

  // runtimeFileSnapshot.Restore: write the body back, or remove a file that did not exist.
  function Put(files: map<Path, File>, p: Path, f: Option<File>): map<Path, File> {
    match f
    case Some(file) => files[p := file]
    case None => files - {p}
  }

  // ----- internal/connect: which records can be written -----

  // UpdateState recovers the tunnel reference that callers holding a pre-save copy have lost.
  function Recovered(s: State, present: TunnelFiles): State {
    if s.link.tunnel != LocalTunnel && present.config then s.(link := s.link.(tunnel := LocalTunnel)) else s
  }

  predicate CanUpdate(s: State, present: TunnelFiles) {
    match Recovered(s, present).link.tunnel
    case LocalTunnel => present.config && present.credentials
    case TokenTunnel => present.token
    case NoTunnel => false
  }

  // What a removal may have left of the tunnel artifacts: it deletes the token, the configuration and the
  // credentials in this order, and stops at the first it cannot delete.
  predicate PartlyRemoved(before: TunnelFiles, left: TunnelFiles) {
    && (left.token ==> before.token) && (left.config ==> before.config) && (left.credentials ==> before.credentials)
    && (left.config != before.config ==> !left.token)
    && (left.credentials != before.credentials ==> !left.token && !left.config)
  }

  // The record goes last, so a removal cut short leaves one. If more has gone than an unused token, no
  // operation can update it any more; and no later removal, cut anywhere, makes it writable again.
  lemma CutRemovalFreezesTheRecord(s: State, before: TunnelFiles, left: TunnelFiles)
    requires PartlyRemoved(before, left)
    ensures CanUpdate(s, left) ==> left == before || (left == before.(token := false) && Recovered(s, before).link.tunnel == LocalTunnel)
    ensures !CanUpdate(s, before) ==> !CanUpdate(s, left)
  {
  }

  // ----- write-ahead undo -----

  ghost predicate Tracks(b: Backup, p: Path) {
    p == b.configPath || (b.source.Some? && p == b.source.value.path)
  }

  ghost predicate HoldsOriginals(b: Backup, pristine: map<Path, File>) {
    && b.config == At(pristine, b.configPath)
    && (b.source.Some? ==> b.source.value.path != b.configPath
                           && At(pristine, b.source.value.path) == Some(b.source.value.file))
  }

  // Whatever differs from its pre-Connect content or mode is held, exactly, by the persisted backup.
  ghost predicate Undoable(files: map<Path, File>, backup: Option<Backup>, pristine: map<Path, File>) {
    && (backup.Some? ==> HoldsOriginals(backup.value, pristine))
    && forall p :: At(files, p) != At(pristine, p) ==> backup.Some? && Tracks(backup.value, p)
  }

  // What restoring a backup leaves: the source first, then the configuration.
  function RestoredFiles(b: Backup, files: map<Path, File>): map<Path, File> {
    var fromSource := if b.source.Some? then files[b.source.value.path := b.source.value.file] else files;
    Put(fromSource, b.configPath, b.config)
  }

  lemma EqualEverywhere(a: map<Path, File>, b: map<Path, File>)
    requires forall p :: At(a, p) == At(b, p)
    ensures a == b
  {
    forall p ensures p in a <==> p in b {
      assert At(a, p) == At(b, p);
    }
    assert a.Keys == b.Keys;
    forall p | p in a ensures a[p] == b[p] {
      assert At(a, p) == At(b, p);
    }
  }

  // A completed restore gives back every body and mode, and every absence.
  lemma RestoreGivesBackPristine(files: map<Path, File>, b: Backup, pristine: map<Path, File>)
    requires Undoable(files, Some(b), pristine)
    ensures RestoredFiles(b, files) == pristine
  {
    var after := RestoredFiles(b, files);
    forall p ensures At(after, p) == At(pristine, p) {
      assert At(files, p) != At(pristine, p) ==> Tracks(b, p);
    }
    EqualEverywhere(after, pristine);
  }

  // Writing a tracked file keeps every original held.
  lemma TrackedWriteIsUndoable(files: map<Path, File>, b: Backup, p: Path, f: Option<File>, pristine: map<Path, File>)
    requires Undoable(files, Some(b), pristine) && Tracks(b, p)
    ensures Undoable(Put(files, p, f), Some(b), pristine)
  {
    forall q | At(Put(files, p, f), q) != At(pristine, q) ensures Tracks(b, q) {
      if q != p {
        assert At(files, q) != At(pristine, q);
      }
    }
  }

  // Without the backup nothing may differ, and the other way around.
  lemma UndoableWithoutBackup(files: map<Path, File>, pristine: map<Path, File>)
    ensures Undoable(files, None, pristine) <==> files == pristine
  {
    if Undoable(files, None, pristine) {
      EqualEverywhere(files, pristine);
    }
  }

  // ----- stage soundness -----

  // The stage and installation flag of a record are backed by effects that have succeeded.
  predicate Justified(s: State, f: Facts) {
    && s.stage != Blank
    && (s.stage.LocalConfigured? || s.stage.ServiceInstalling? || s.stage.Installed? || s.stage.Online? ==>
          f.credentialSet && f.settingsProven)
    && (s.stage.Installed? || s.stage.Online? ==> f.installOk)
    && (s.installed ==> f.installOk)
    && (s.stage == Online ==> s.installed && f.probeOk)
    && (s.stage == CleanupPending ==> s.link.driver == Runs)
  }

  // The undo flags of a record are true of the machine, so cleanup may skip what they say is done.
  ghost predicate FlagsHold(s: State, files: map<Path, File>, pristine: map<Path, File>, undoLost: bool, enrolled: bool) {
    && (s.restored ==> undoLost || files == pristine)
    && (s.revoked ==> !enrolled)
  }
}
