// External runtimes (OpenClaw, Hermes): editing a runtime's configuration and source under a persisted
// write-ahead backup, and undoing an enrollment from whatever point it has reached.
module ConnectRuntime {
  import opened Wrappers
  import opened ConnectState
  import opened ConnectHost

  // Nothing on disk says that the runtime configuration has been restored already.
  ghost predicate NotRestored(h: Host)
    reads h
  {
    h.saved.Saved? ==> !h.saved.state.restored
  }

  // An atomic replacement or a removal of one runtime file, which the backup must already track.
  method WriteRuntimeFile(h: Host, p: Path, f: Option<File>) returns (ok: bool)
    requires h.Valid() && NotRestored(h)
    requires h.backup.Some? && Tracks(h.backup.value, p)
    modifies h`files, h`clock, h`alive
    ensures h.Valid() && (h.alive ==> old(h.alive))
    ensures h.files == old(h.files) || h.files == Put(old(h.files), p, f)
    ensures ok ==> h.files == Put(old(h.files), p, f)
    ensures h.smooth ==> ok
    ensures !old(h.alive) ==> h.files == old(h.files)
    ensures old(h.DiesAfter(0)) ==> !ok && !h.alive && h.files == Put(old(h.files), p, f)
  {
    if !h.undoLost {
      TrackedWriteIsUndoable(h.files, h.backup.value, p, f, h.pristine);
    }
    var o := h.Attempt();
    if o != NotDone { h.files := Put(h.files, p, f); }
    ok := o == Done;
  }

  // `gateway restart`, with a second chance by `gateway start` for Hermes.
  method RestartGateway(h: Host, runtime: Runtime) returns (ok: bool)
    requires h.Valid()
    modifies h`clock, h`alive
    ensures h.Valid() && (h.alive ==> old(h.alive)) && (h.smooth ==> ok)
  {
    var o := h.Attempt();
    if o != Done && runtime == Hermes { o := h.Attempt(); }
    ok := o == Done;
  }

  // runtimeSnapshotForPreparation: a backup already on disk wins over the file as it is now.
  method CaptureBackup(h: Host, runtime: Runtime, path: Path) returns (ok: bool)
    requires h.Valid() && h.saved.NoState?
    modifies h`backup, h`clock, h`alive
    ensures h.Valid() && (h.alive ==> old(h.alive))
    ensures old(h.backup).Some? ==> h.backup == old(h.backup)
    ensures old(h.backup).None? ==> h.backup.None? || h.backup == Some(Backup(runtime, path, At(h.files, path), None))
    ensures ok ==> h.backup.Some? && h.backup.value.configPath == path && h.backup.value.runtime == runtime
    ensures h.smooth ==>
              (ok <==> old(h.backup).None? || (old(h.backup).value.runtime == runtime && old(h.backup).value.configPath == path))
    ensures !old(h.alive) ==> h.backup == old(h.backup)
    ensures old(h.backup.None? && h.DiesAfter(2)) ==> ok && h.DiesAfter(1)
  {
    if h.backup.Some? {
      return h.backup.value.runtime == runtime && h.backup.value.configPath == path;
    }
    if !h.undoLost {
      UndoableWithoutBackup(h.files, h.pristine);
    }
    var o := h.Attempt();
    if o != NotDone {
      h.backup := Some(Backup(runtime, path, At(h.files, path), None));
    }
    ok := o == Done;
  }

  // restoreRuntimeConfiguration for the configuration file of the persisted backup.
  method RestoreConfig(h: Host) returns (ok: bool)
    requires h.Valid() && NotRestored(h) && h.backup.Some?
    modifies h`files, h`clock, h`alive
    ensures h.Valid() && (h.alive ==> old(h.alive))
    ensures h.files == old(h.files) || h.files == Put(old(h.files), h.backup.value.configPath, h.backup.value.config)
    ensures ok ==> h.files == Put(old(h.files), h.backup.value.configPath, h.backup.value.config)
    ensures h.smooth ==> ok
    ensures !old(h.alive) ==> h.files == old(h.files)
  {
    ok := WriteRuntimeFile(h, h.backup.value.configPath, h.backup.value.config);
    if ok { ok := RestartGateway(h, h.backup.value.runtime); }
  }

  // restorePersistedRuntimeConfigBackup: the source first, then the configuration, then a restart.
  // A completed restore gives back every body and mode, and every absence.
  method RestoreBackup(h: Host) returns (ok: bool)
    requires h.Valid() && NotRestored(h) && h.backup.Some?
    modifies h`files, h`clock, h`alive
    ensures h.Valid() && (h.alive ==> old(h.alive))
    ensures ok && !h.undoLost ==> h.files == h.pristine
    ensures h.smooth ==> ok
    ensures !old(h.alive) ==> h.files == old(h.files)
  {
    var b := h.backup.value;
    if !h.undoLost {
      RestoreGivesBackPristine(h.files, b, h.pristine);
    }
    if b.source.Some? {
      ok := WriteRuntimeFile(h, b.source.value.path, Some(b.source.value.file));
      if !ok { return; }
    }
    ok := RestoreConfig(h);
  }

  // rollbackExternalRuntimeConfiguration, and the deferred rollback of a failed preparation.
  method RollBackPreparation(h: Host) returns (ok: bool)
    requires h.Valid() && NotRestored(h) && h.backup.Some? && h.backup.value.source.None?
    modifies h`files, h`backup, h`undoLost, h`clock, h`alive
    ensures h.Valid() && (h.alive ==> old(h.alive))
    ensures h.undoLost == old(h.undoLost) && (h.backup == old(h.backup) || h.backup.None?)
    ensures ok ==> h.backup.None? && (h.undoLost || h.files == h.pristine)
    ensures h.smooth ==> ok
    ensures !old(h.alive) ==> h.files == old(h.files) && h.backup == old(h.backup)
  {
    ok := RestoreBackup(h);
    if ok && !h.undoLost { assert h.files == h.pristine; }
    if ok { ok := h.RemoveBackup(); }
  }

  // prepareOpenClawWithInput and prepareHermesWithInput: readiness checks, snapshot, the first edit of the
  // configuration, more checks and a restart; any failure after the snapshot rolls back.
  method Prepare(h: Host, runtime: Runtime, path: Path, edited: File) returns (ok: bool)
    requires h.Valid() && h.saved.NoState?
    modifies h`files, h`backup, h`undoLost, h`clock, h`alive
    ensures h.Valid() && (h.alive ==> old(h.alive)) && h.undoLost == old(h.undoLost)
    ensures ok ==> h.backup.Some? && h.backup.value.configPath == path && h.backup.value.runtime == runtime
    ensures ok ==> At(h.files, path) == Some(edited)
    ensures !old(h.alive) ==> !ok && h.files == old(h.files) && h.backup == old(h.backup)
    // the process may die with the configuration edited and the backup alone knowing of it
    ensures old(h.backup.None? && h.DiesAfter(3)) ==>
              !ok && !h.alive && h.backup.Some? && h.files == old(h.files)[path := edited]
    ensures h.smooth ==>
              (ok <==> old(h.backup).None? || (old(h.backup).value.runtime == runtime && old(h.backup).value.configPath == path))
  {
    var ready := h.Attempt();
    if ready != Done { return false; }
    ok := CaptureBackup(h, runtime, path);
    if !ok { return; }
    ok := EditConfig(h, path, edited);
    if !ok {
      var rolledBack := RollBackPreparation(h);
    }
  }

  // The checks, the edit and the restart of a preparation, and of configure with the access token.
  method EditConfig(h: Host, path: Path, edited: File) returns (ok: bool)
    requires h.Valid() && NotRestored(h) && h.backup.Some? && h.backup.value.configPath == path
    modifies h`files, h`clock, h`alive
    ensures h.Valid() && (h.alive ==> old(h.alive)) && (h.smooth ==> ok)
    ensures h.files == old(h.files) || h.files == old(h.files)[path := edited]
    ensures ok ==> h.files == old(h.files)[path := edited]
    ensures !old(h.alive) ==> h.files == old(h.files)
    ensures old(h.DiesAfter(1)) ==> !ok && !h.alive && h.files == old(h.files)[path := edited]
  {
    var checked := h.Attempt();
    if checked != Done { return false; }
    ok := WriteRuntimeFile(h, path, Some(edited));
    if ok { ok := RestartGateway(h, h.backup.value.runtime); }
  }

  // recordHermesSourcePatchBackup: the source joins the backup before it is patched.
  method RecordSource(h: Host, src: Path) returns (ok: bool)
    requires h.Valid() && h.saved.Saved? && h.saved.state.link.driver == Runs
    requires h.backup.Some? ==> src != h.backup.value.configPath
    modifies h`backup, h`clock, h`alive
    ensures h.Valid() && (h.alive ==> old(h.alive))
    ensures ok ==> h.backup.Some? && Tracks(h.backup.value, src)
    ensures old(h.backup).Some? ==> h.backup.Some? && h.backup.value.(source := None) == old(h.backup).value.(source := None)
    ensures old(h.backup).None? ==> h.backup.None?
    ensures !old(h.alive) ==> h.backup == old(h.backup)
  {
    if h.backup.None? || h.backup.value.runtime != Hermes { return false; }
    var b := h.backup.value;
    if b.source.Some? { return b.source.value.path == src; }
    if src !in h.files { return false; }
    assert At(h.files, src) == Some(h.files[src]);
    assert !h.undoLost ==> At(h.files, src) == At(h.pristine, src);
    var o := h.Attempt();
    if o != NotDone { h.backup := Some(b.(source := Some(SourceCopy(src, h.files[src])))); }
    ok := o == Done;
  }

  // recoverHermesSSECors with applyHermesSSECorsPatch: consent, the shape check, the backup, the syntax
  // check, the patch under the file's own mode, a restart.
  method PatchSource(h: Host, src: Path, patched: string) returns (ok: bool)
    requires h.Valid() && h.saved.Saved? && h.saved.state.link.driver == Runs && NotRestored(h)
    requires h.backup.Some? ==> src != h.backup.value.configPath
    modifies h`files, h`backup, h`clock, h`alive
    ensures h.Valid() && (h.alive ==> old(h.alive))
    ensures old(h.backup).Some? ==> h.backup.Some? && h.backup.value.(source := None) == old(h.backup).value.(source := None)
    ensures h.files == old(h.files)
            || (src in old(h.files) && h.files == old(h.files)[src := File(old(h.files)[src].mode, patched)]
                && h.backup.Some? && Tracks(h.backup.value, src))
    ensures ok ==> src in old(h.files) && h.files == old(h.files)[src := File(old(h.files)[src].mode, patched)]
    ensures !old(h.alive) ==> h.files == old(h.files) && h.backup == old(h.backup)
  {
    var consent := h.Attempt();
    if consent != Done || src !in h.files { return false; }
    var mode := h.files[src].mode;
    ok := RecordSource(h, src);
    if !ok { return; }
    var parses := h.Attempt();
    if parses != Done { return false; }
    ok := WriteRuntimeFile(h, src, Some(File(mode, patched)));
    if ok { ok := RestartGateway(h, Hermes); }
  }

  // ----- cleanup -----

  // Cleanup's copy of the record may be written at any moment, and the disk claims no more than it does.
  ghost predicate CleaningUp(h: Host, s: State)
    reads h
  {
    && h.Valid() && h.Recordable(s) && s.stage == CleanupPending
    && h.saved.Saved? && h.saved.state.link.driver == Runs && s.link.driver == Runs
    && (h.saved.state.restored ==> s.restored) && (h.saved.state.revoked ==> s.revoked)
  }

  // A present service is known to be present, on disk and to the cleanup.
  ghost predicate ServiceTold(h: Host, s: State)
    reads h
  {
    h.service ==> h.saved.Saved? && h.saved.state.installed && s.installed
  }

  // What a cleanup working from s makes of the record on disk: no undo recorded there is forgotten, no restore
  // made up, a service that neither the disk nor s knew of not recorded, and the connection is the one it was
  // or that of s.
  predicate Remembers(before: State, s: State, after: State, tunnel: TunnelFiles, backup: Option<Backup>) {
    && (before.restored ==> after.restored) && (before.revoked ==> after.revoked)
    && (after.restored ==> before.restored || s.restored || backup.Some?)
    && (after.installed ==> before.installed || s.installed)
    && (after.link == before.link || after.link == Recovered(s, tunnel).link)
  }

  // The record on disk is s.
  ghost predicate OnDisk(h: Host, s: State)
    reads h
  {
    h.saved == Saved(Recovered(s, h.tunnel))
  }

  // One checkpoint of a cleanup.
  method RecordProgress(h: Host, s: State) returns (ok: bool)
    requires CleaningUp(h, s)
    modifies h`saved, h`clock, h`alive
    ensures CleaningUp(h, s) && (h.alive ==> old(h.alive))
    ensures Remembers(old(h.saved).state, s, h.saved.state, h.tunnel, h.backup)
    ensures ok ==> OnDisk(h, s) && CanUpdate(s, h.tunnel)
    ensures old(ServiceTold(h, s)) ==> ServiceTold(h, s)
    ensures !CanUpdate(s, h.tunnel) ==> h.saved == old(h.saved)
    ensures h.smooth ==> ok == CanUpdate(s, h.tunnel)
  {
    ok := h.UpdateState(s);
  }

  method CleanService(h: Host, s: State) returns (s': State, clean: bool)
    requires CleaningUp(h, s)
    modifies h`saved, h`service, h`tried, h`clock, h`alive
    ensures CleaningUp(h, s') && (h.alive ==> old(h.alive))
    ensures s' == s.(installed := s'.installed) && (s'.installed ==> s.installed)
    ensures h.tried == old(h.tried) + if s.installed && old(h.alive) then [StopService] else []
    ensures s.installed && !s'.installed ==> !h.service
    ensures clean ==> !s'.installed
    ensures !s.installed ==> clean && h.service == old(h.service)
    ensures old(ServiceTold(h, s)) ==> ServiceTold(h, s')
    ensures Remembers(old(h.saved).state, s, h.saved.state, h.tunnel, h.backup)
    ensures clean && old(OnDisk(h, s)) ==> OnDisk(h, s')
    ensures !CanUpdate(s, h.tunnel) ==> h.saved == old(h.saved)
    ensures h.smooth ==> clean == (s.installed ==> CanUpdate(s, h.tunnel))
  {
    s', clean := s, true;
    if s.installed {
      var o := h.UninstallService();
      clean := o == Done;
      if clean {
        s' := s.(installed := false);
        clean := RecordProgress(h, s');
      }
    }
  }

  // restoreExternalRuntimeConfiguration: refuses without a backup of this runtime.
  method CleanRuntime(h: Host, s: State) returns (s': State, clean: bool)
    requires CleaningUp(h, s)
    modifies h`saved, h`files, h`tried, h`clock, h`alive
    ensures CleaningUp(h, s') && (h.alive ==> old(h.alive))
    ensures s' == s.(restored := s'.restored) && (s.restored ==> s'.restored)
    ensures h.tried == old(h.tried) + if !s.restored && old(h.alive) then [RestoreRuntime] else []
    ensures clean ==> s'.restored
    ensures s'.restored ==> s.restored || h.backup.Some?
    ensures s.restored ==> clean && h.files == old(h.files)
    ensures old(ServiceTold(h, s)) ==> ServiceTold(h, s')
    ensures Remembers(old(h.saved).state, s, h.saved.state, h.tunnel, h.backup)
    ensures clean && old(OnDisk(h, s)) ==> OnDisk(h, s')
    ensures !CanUpdate(s, h.tunnel) ==> h.saved == old(h.saved)
    ensures h.smooth ==> clean == (!s.restored ==> h.backup.Some? && h.backup.value.runtime == s.link.runtime && CanUpdate(s, h.tunnel))
  {
    s', clean := s, true;
    if !s.restored {
      h.Begin(RestoreRuntime);
      clean := h.backup.Some? && h.backup.value.runtime == s.link.runtime;
      if clean { clean := RestoreBackup(h); }
      if clean {
        s' := s.(restored := true);
        clean := RecordProgress(h, s');
      }
    }
  }

  method CleanCloud(h: Host, s: State) returns (s': State, clean: bool)
    requires CleaningUp(h, s)
    modifies h`saved, h`enrolled, h`tried, h`clock, h`alive
    ensures CleaningUp(h, s') && (h.alive ==> old(h.alive))
    ensures s' == s.(revoked := s'.revoked) && (s.revoked ==> s'.revoked)
    ensures h.tried == old(h.tried) + if !s.revoked && old(h.alive) then [RevokeCloud] else []
    ensures clean ==> s'.revoked
    ensures s.revoked ==> clean
    ensures old(ServiceTold(h, s)) ==> ServiceTold(h, s')
    ensures Remembers(old(h.saved).state, s, h.saved.state, h.tunnel, h.backup)
    ensures clean && old(OnDisk(h, s)) ==> OnDisk(h, s')
    ensures !CanUpdate(s, h.tunnel) ==> h.saved == old(h.saved)
    ensures h.smooth ==> clean == (!s.revoked ==> CanUpdate(s, h.tunnel))
  {
    s', clean := s, true;
    if !s.revoked {
      var o := h.Revoke();
      clean := o == Done;
      if clean {
        s' := s.(revoked := true);
        clean := RecordProgress(h, s');
      }
    }
  }

  // What a cleanup attempts if its process lives, whatever fails on the way: in order, every undo that its
  // record does not claim to be done.
  function TriedAfter(before: seq<Undo>, s: State): seq<Undo> {
    before + (if s.installed then [StopService] else [])
    + (if s.restored then [] else [RestoreRuntime])
    + (if s.revoked then [] else [RevokeCloud])
  }

  // All of that has been attempted, or the process died on the way, in that order.
  predicate TriedSoFar(before: seq<Undo>, s: State, tried: seq<Undo>, alive: bool) {
    before <= tried <= TriedAfter(before, s) && (alive ==> tried == TriedAfter(before, s))
  }

  // The first two undos one after the other, each tried if the process still lived.
  lemma TriedTwo(before: seq<Undo>, s: State, alive: bool, mid: seq<Undo>, midAlive: bool, tried: seq<Undo>, still: bool)
    requires s.revoked && (still ==> midAlive) && (midAlive ==> alive)
    requires mid == before + if s.installed && alive then [StopService] else []
    requires tried == mid + if !s.restored && midAlive then [RestoreRuntime] else []
    ensures TriedSoFar(before, s, tried, still)
  {
  }

  // And the third.
  lemma TriedThree(before: seq<Undo>, s: State, mid: seq<Undo>, midAlive: bool, tried: seq<Undo>, still: bool)
    requires TriedSoFar(before, s.(revoked := true), mid, midAlive) && (still ==> midAlive)
    requires tried == mid + if !s.revoked && midAlive then [RevokeCloud] else []
    ensures TriedSoFar(before, s, tried, still)
  {
  }

  // The record claims all three undos.
  predicate AllUndone(s: State) {
    s.restored && s.revoked && !s.installed
  }

  // What a cleanup with no failing effect still needs: the tunnel artifacts, without which the record
  // cannot be updated, and a backup of this runtime unless the restore is already recorded.
  ghost predicate CanFinish(h: Host, s: State)
    reads h
  {
    CanUpdate(s, h.tunnel) && (s.restored || (h.backup.Some? && h.backup.value.runtime == s.link.runtime))
  }

  // The undos on this machine.
  method UndoLocally(h: Host, s0: State) returns (s: State, clean: bool)
    requires CleaningUp(h, s0)
    modifies h`saved, h`files, h`service, h`tried, h`clock, h`alive
    ensures CleaningUp(h, s) && (h.alive ==> old(h.alive))
    ensures s == s0.(installed := s.installed, restored := s.restored) && (s.installed ==> s0.installed)
    ensures TriedSoFar(old(h.tried), s0.(revoked := true), h.tried, h.alive)
    ensures clean ==> s.restored && !s.installed && (s0.installed ==> !h.service)
    ensures s.restored ==> s0.restored || h.backup.Some?
    ensures !s0.installed ==> h.service == old(h.service)
    ensures Remembers(old(h.saved).state, s0, h.saved.state, h.tunnel, h.backup)
    ensures clean && old(OnDisk(h, s0)) ==> OnDisk(h, s)
    ensures old(ServiceTold(h, s0)) ==> ServiceTold(h, s)
    ensures !CanUpdate(s0, h.tunnel) ==> h.saved == old(h.saved)
    ensures h.smooth && CanUpdate(s0, h.tunnel) ==> clean == old(CanFinish(h, s0))
  {
    var stopped, restored: bool;
    ghost var before, alive := h.tried, h.alive;
    s, stopped := CleanService(h, s0);
    ghost var mid, midAlive := h.tried, h.alive;
    assert CanUpdate(s, h.tunnel) == CanUpdate(s0, h.tunnel) && s.restored == s0.restored;
    s, restored := CleanRuntime(h, s);
    TriedTwo(before, s0.(revoked := true), alive, mid, midAlive, h.tried, h.alive);
    clean := stopped && restored;
  }

  // The three undos of a cleanup, each tried whatever became of the ones before.
  method UndoAll(h: Host, s0: State) returns (s: State, clean: bool)
    requires CleaningUp(h, s0)
    modifies h`saved, h`files, h`service, h`enrolled, h`tried, h`clock, h`alive
    ensures CleaningUp(h, s) && (h.alive ==> old(h.alive))
    ensures TriedSoFar(old(h.tried), s0, h.tried, h.alive)
    ensures clean ==> AllUndone(s) && (s0.installed ==> !h.service)
    ensures !s0.installed ==> h.service == old(h.service)
    ensures Remembers(old(h.saved).state, s0, h.saved.state, h.tunnel, h.backup)
    ensures clean && old(OnDisk(h, s0)) ==> OnDisk(h, s)
    ensures old(ServiceTold(h, s0)) ==> ServiceTold(h, s)
    ensures !CanUpdate(s0, h.tunnel) ==> h.saved == old(h.saved)
    ensures h.smooth && CanUpdate(s0, h.tunnel) ==> clean == old(CanFinish(h, s0))
  {
    var local, revoked: bool;
    ghost var before := h.tried;
    s, local := UndoLocally(h, s0);
    ghost var mid, midAlive := h.tried, h.alive;
    assert CanUpdate(s, h.tunnel) == CanUpdate(s0, h.tunnel);
    s, revoked := CleanCloud(h, s);
    TriedThree(before, s0, mid, midAlive, h.tried, h.alive);
    clean := local && revoked;
  }

  // The cleanup checkpoint first, whether or not it can be recorded.
  method UndoFromCheckpoint(h: Host, s0: State) returns (s: State, clean: bool)
    requires CleaningUp(h, s0)
    modifies h`saved, h`files, h`service, h`enrolled, h`tried, h`clock, h`alive
    ensures CleaningUp(h, s) && (h.alive ==> old(h.alive))
    ensures TriedSoFar(old(h.tried), s0, h.tried, h.alive)
    ensures clean ==> AllUndone(s) && (s0.installed ==> !h.service) && CanUpdate(s0, h.tunnel)
    ensures !s0.installed ==> h.service == old(h.service)
    ensures Remembers(old(h.saved).state, s0, h.saved.state, h.tunnel, h.backup)
    ensures clean ==> OnDisk(h, s)
    ensures old(ServiceTold(h, s0)) ==> ServiceTold(h, s)
    ensures !CanUpdate(s0, h.tunnel) ==> h.saved == old(h.saved)
    ensures h.smooth ==> clean == old(CanFinish(h, s0))
  {
    var recorded := RecordProgress(h, s0);
    s, clean := UndoAll(h, s0);
    clean := recorded && clean;
  }

  // cleanupExternalRuntimeEnrollment, on the caller's copy of the record.
  method Cleanup(h: Host, s0: State) returns (ok: bool)
    requires CleaningUp(h, s0.(stage := CleanupPending))
    modifies h`saved, h`tunnel, h`backup, h`files, h`service, h`enrolled, h`undoLost, h`tried, h`clock, h`alive
    ensures h.Valid() && (h.alive ==> old(h.alive)) && h.undoLost == old(h.undoLost)
    ensures TriedSoFar(old(h.tried), s0, h.tried, h.alive)
    // the record goes only when everything it knows of is undone
    ensures ok ==> h.saved.NoState?
    ensures h.saved.NoState? ==> h.backup.None? && !h.enrolled && (h.undoLost || h.files == h.pristine)
    ensures !s0.installed ==> h.service == old(h.service)
    ensures h.saved.NoState? ==> (h.service <==> old(h.service) && !s0.installed)
    // a record that stays keeps the undo flags it had, and its artifacts and backup until it has all of them
    ensures h.saved.Saved? ==> h.saved.state.link.driver == Runs
    ensures h.saved.Saved? ==> Remembers(old(h.saved).state, s0, h.saved.state, old(h.tunnel), old(h.backup))
    ensures h.saved.Saved? ==> AllUndone(h.saved.state) || (h.tunnel == old(h.tunnel) && h.backup == old(h.backup))
    ensures old(ServiceTold(h, s0)) ==> (h.service ==> h.saved.Saved? && h.saved.state.installed)
    // exactly when an untroubled cleanup finishes, and when no cleanup can
    ensures h.saved.NoState? ==> old(CanFinish(h, s0))
    ensures h.smooth ==> (ok <==> old(CanFinish(h, s0)))
    ensures !old(CanUpdate(s0, h.tunnel)) ==> !ok && h.saved == old(h.saved) && h.tunnel == old(h.tunnel)
  {
    var s := s0.(stage := CleanupPending);
    assert CanUpdate(s, h.tunnel) == CanUpdate(s0, h.tunnel);
    var clean: bool;
    ghost var can := CanFinish(h, s0);
    s, clean := UndoFromCheckpoint(h, s);
    assert clean ==> can && AllUndone(h.saved.state);
    if !clean { return false; }
    ok := RemoveUndone(h);
  }

  // The record of an enrollment that is all undone goes, and no undo is lost with it.
  method RemoveUndone(h: Host) returns (ok: bool)
    requires h.Valid() && h.saved.Saved? && AllUndone(h.saved.state)
    modifies h`saved, h`tunnel, h`backup, h`undoLost, h`clock, h`alive
    ensures h.Valid() && (h.alive ==> old(h.alive)) && h.undoLost == old(h.undoLost)
    ensures !h.enrolled && (h.undoLost || h.files == h.pristine)
    ensures h.saved == old(h.saved) || h.saved.NoState?
    ensures h.saved.NoState? ==> h.backup.None?
    ensures (ok ==> h.saved.NoState?) && (h.smooth ==> ok)
  {
    ok := h.RemoveState();
  }

  // ----- cleanup again and again -----

  predicate Claims(s: State, u: Undo) {
    match u
    case StopService => !s.installed
    case RestoreRuntime => s.restored
    case RevokeCloud => s.revoked
  }

  predicate StillClaims(before: State, after: State) {
    && (before.restored ==> after.restored) && (before.revoked ==> after.revoked)
    && (after.installed ==> before.installed)
  }

  // A cleanup tries nothing that its record claims to be done.
  lemma TriesOnlyUnclaimed(before: seq<Undo>, s: State, tried: seq<Undo>, alive: bool)
    requires TriedSoFar(before, s, tried, alive)
    ensures forall i :: |before| <= i < |tried| ==> !Claims(s, tried[i])
  {
    var all := TriedAfter(before, s);
    forall i | |before| <= i < |all| ensures !Claims(s, all[i]) {
    }
    forall i | |before| <= i < |tried| ensures !Claims(s, tried[i]) {
      assert tried[i] == all[i];
    }
  }

  // A runtime's record that tells of the service if there is one.
  ghost predicate Told(h: Host)
    reads h
  {
    h.saved.Saved? && h.saved.state.link.driver == Runs && ServiceTold(h, h.saved.state)
  }

  // Everything Connect set up is gone, and every runtime file is back unless its original was lost before.
  ghost predicate Undone(h: Host)
    reads h
  {
    !h.service && !h.enrolled && (h.undoLost || h.files == h.pristine)
  }

  // What a cleanup that could, or could not, be finished may have come to.
  ghost predicate Finishing(could: bool, h: Host)
    reads h
  {
    if could then h.saved.NoState? || CanFinish(h, h.saved.state) || AllUndone(h.saved.state)
    else h.saved.Saved? && !CanFinish(h, h.saved.state)
  }

  // One cleanup of the saved record, in a process that may die anywhere and with any effects failing.
  method RetryOnce(h: Host)
    requires h.Valid() && Told(h)
    modifies h
    ensures h.Valid() && h.undoLost == old(h.undoLost)
    ensures if h.saved.Saved? then Told(h) && StillClaims(old(h.saved).state, h.saved.state) else Undone(h)
    ensures old(h.tried) <= h.tried
    ensures forall i :: |old(h.tried)| <= i < |h.tried| ==> !Claims(old(h.saved).state, h.tried[i])
    ensures Finishing(old(CanFinish(h, h.saved.state)), h)
  {
    h.Restart(false);
    ghost var s, before := h.saved.state, h.tried;
    var done := Cleanup(h, h.saved.state);
    TriesOnlyUnclaimed(before, s, h.tried, h.alive);
  }

  // Any number of them. The record is removed only when everything is undone; while it stays it tells of the
  // service; an undo it claims at the start, which may be any moment of a longer run, is never tried again;
  // what could not be finished at the start never can, and what could still can, or only the record is left.
  method RetryCleanup(h: Host, n: nat)
    requires h.Valid() && Told(h)
    modifies h
    ensures h.Valid() && h.undoLost == old(h.undoLost)
    ensures if h.saved.Saved? then Told(h) && StillClaims(old(h.saved).state, h.saved.state) else Undone(h)
    ensures old(h.tried) <= h.tried
    ensures forall i :: |old(h.tried)| <= i < |h.tried| ==> !Claims(old(h.saved).state, h.tried[i])
    ensures Finishing(old(CanFinish(h, h.saved.state)), h)
  {
    for i := 0 to n
      invariant h.Valid() && h.undoLost == old(h.undoLost)
      invariant if h.saved.Saved? then Told(h) && StillClaims(old(h.saved).state, h.saved.state) else Undone(h)
      invariant old(h.tried) <= h.tried
      invariant forall i :: |old(h.tried)| <= i < |h.tried| ==> !Claims(old(h.saved).state, h.tried[i])
      invariant Finishing(old(CanFinish(h, h.saved.state)), h)
    {
      if h.saved.NoState? { return; }
      RetryOnce(h);
    }
  }

  // One untroubled cleanup of what they left: it finishes exactly if a cleanup can.
  method FinishCleanup(h: Host) returns (ok: bool)
    requires h.Valid() && Told(h)
    modifies h
    ensures h.Valid() && h.undoLost == old(h.undoLost)
    ensures ok <==> old(CanFinish(h, h.saved.state))
    ensures ok <==> h.saved.NoState?
    ensures ok || old(AllUndone(h.saved.state)) ==> Undone(h)
    ensures old(h.Frozen()) ==> h.saved == old(h.saved) && h.Frozen()
  {
    h.Restart(true);
    ok := Cleanup(h, h.saved.state);
  }

  // So however often a cleanup was cut short, if it could be finished at the start, in the end everything is
  // undone, and all that an untroubled cleanup may then not finish is the removal of a frozen record.
  method RetryThenFinish(h: Host, n: nat) returns (ok: bool)
    requires h.Valid() && Told(h)
    modifies h
    ensures h.Valid() && h.undoLost == old(h.undoLost) && (ok <==> h.saved.NoState?)
    ensures ok ==> old(CanFinish(h, h.saved.state))
    ensures old(CanFinish(h, h.saved.state)) ==> Undone(h) && (ok || (h.Frozen() && AllUndone(h.saved.state)))
  {
    RetryCleanup(h, n);
    ok := true;
    if h.saved.Saved? { ok := FinishCleanup(h); }
  }
}
