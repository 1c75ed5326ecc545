// The connect commands, and whole runs of them: any sequence of commands, each cut anywhere by the
// death of its process, with any effects failing.
module ConnectCommands {
  import opened Wrappers
  import opened ConnectService
  import opened ConnectState
  import opened ConnectHost
  import opened ConnectLifecycle
  import opened ConnectRuntime
  import Local = ConnectLocal

  // ----- connect setup -----

  // What a local setup is authorized with: the settings it will apply, the tunnel credential the cloud
  // returned, and whether it stays in the terminal.
  datatype LocalPlan = LocalPlan(applied: ServiceSettings, kind: TunnelCredential, noService: bool)

  // Whether the record a setup saves can be updated from the setup's copy of it: with a local credential,
  // or, by chance, beside the complete artifacts of an earlier local tunnel.
  predicate Writable(kind: TunnelCredential, before: TunnelFiles) {
    kind == LocalCredential || (kind == LegacyToken && before.config && before.credentials)
  }

  function FreshLocal(plan: LocalPlan, before: ServiceConfig): State {
    State(Link(Driver.Local, NoRuntime, plan.noService, NoTunnel, Some(Checkpoint(before.service, plan.applied))),
          Authorized, false, false, false)
  }

  // The checks, the sign-in and the authorized checkpoint.
  method Authorize(h: Host, plan: LocalPlan) returns (s: State, ok: bool)
    requires h.Valid() && !h.externalOnly && h.saved.NoState?
    modifies h`saved, h`tunnel, h`backup, h`undoLost, h`config, h`credential, h`enrolled, h`facts, h`clock, h`alive
    ensures h.Valid() && (h.alive ==> old(h.alive))
    ensures s == FreshLocal(plan, old(h.config))
    ensures h.saved.NoState? || (h.saved == Saved(Host.WithTunnel(s, plan.kind)) && plan.kind != Missing)
    ensures ok ==> h.saved.Saved? && h.config == old(h.config) && Host.CanSave(plan.kind, h.tunnel)
    ensures ok && plan.kind != LocalCredential ==> h.tunnel == old(h.tunnel).(token := h.tunnel.token)
    ensures h.config == old(h.config) && (ok ==> h.enrolled)
    ensures ok ==> h.backup == old(h.backup) && h.undoLost == old(h.undoLost)
    ensures h.smooth ==> (ok <==> plan.kind != Missing)
  {
    s := FreshLocal(plan, h.config);
    var o := h.Attempt();
    if o != Done { return s, false; }
    o := h.Attempt();
    if o != NotDone { h.enrolled := true; }
    if o != Done { return s, false; }
    ok := h.SaveState(s, plan.kind, NO_FACTS);
    if !ok {
      var rolledBack := Local.RollBackSetup(h, s);
    }
  }

  // The credential and the settings; a failure takes the setup back.
  method EnterOrRollBack(h: Host, s: State) returns (ok: bool)
    requires h.Valid() && !h.externalOnly && s.link.checkpoint.Some? && h.config.service == s.link.checkpoint.value.previous
    modifies h`saved, h`tunnel, h`backup, h`undoLost, h`config, h`credential, h`enrolled, h`facts, h`clock, h`alive
    ensures h.Valid() && (h.alive ==> old(h.alive)) && (h.smooth ==> ok)
    ensures h.saved == old(h.saved) || h.saved.NoState?
    ensures h.config == old(h.config) || h.config == old(h.config).(service := s.link.checkpoint.value.applied)
    ensures ok ==> h.credential && Local.InForce(s, h.config) && h.facts.credentialSet && h.facts.settingsProven
    ensures ok ==> h.saved == old(h.saved) && h.tunnel == old(h.tunnel) && h.enrolled == old(h.enrolled)
    ensures ok ==> h.backup == old(h.backup) && h.undoLost == old(h.undoLost)
  {
    ApplyRefusesThirdValues(h.config, s.link.checkpoint.value.previous, s.link.checkpoint.value.applied);
    ok := Local.EnterLocally(h, s);
    if !ok {
      var rolledBack := Local.RollBackSetup(h, s);
    }
  }

  // The record of it, and the stages after it.
  method FinishLocally(h: Host, s: State) returns (ok: bool)
    requires h.Valid() && h.saved.Saved? && h.saved.state.stage == Authorized && h.saved.state.link.driver == s.link.driver == Driver.Local
    requires s.stage == Authorized && !h.externalOnly && Justified(s.(stage := LocalConfigured), h.facts) && !s.restored && !s.revoked
    requires h.backup.None? || h.backup.value.source.None?
    modifies h`saved, h`service, h`facts, h`clock, h`alive
    ensures h.Valid() && (h.alive ==> old(h.alive))
    ensures h.saved == old(h.saved) || (CanUpdate(s, h.tunnel) && h.saved.Saved? && Goal(h.saved.state) == Goal(Recovered(s, h.tunnel)))
    ensures ok ==> h.saved.Saved? && CanUpdate(s, h.tunnel)
                   && h.saved.state.stage == if s.link.terminalOnly then LocalConfigured else Online
    ensures ok && !s.link.terminalOnly ==> h.service
    ensures h.smooth ==> (ok <==> CanUpdate(s, h.tunnel))
  {
    var configured := s.(stage := LocalConfigured);
    ok := h.UpdateState(configured);
    if !ok || s.link.terminalOnly { return; }
    ok := Finish(h, configured);
  }

  // setupRemoteConnectionWithOperations without a saved record.
  method SetUpLocally(h: Host, plan: LocalPlan) returns (ok: bool)
    requires h.Valid() && !h.externalOnly && h.saved.NoState?
    modifies h`saved, h`tunnel, h`backup, h`undoLost, h`config, h`service, h`credential, h`enrolled, h`facts, h`clock, h`alive
    ensures h.Valid() && (h.alive ==> old(h.alive))
    ensures h.saved.Saved? && plan.kind == LocalCredential ==>
              Goal(h.saved.state) == Goal(Host.WithTunnel(FreshLocal(plan, old(h.config)), plan.kind))
    ensures h.config.rest == old(h.config).rest && (h.config.service == old(h.config).service || h.config.service == plan.applied)
    ensures ok ==> h.enrolled && h.credential && h.config.service == plan.applied && h.saved.Saved?
                   && h.saved.state.stage == (if plan.noService then LocalConfigured else Online) && (!plan.noService ==> h.service)
    ensures ok ==> h.backup == old(h.backup) && h.undoLost == old(h.undoLost)
    // the copy of the record that the updates write names no tunnel: a legacy token will not do
    ensures ok ==> Writable(plan.kind, old(h.tunnel))
    ensures h.smooth ==> (ok <==> Writable(plan.kind, old(h.tunnel)))
  {
    var s: State;
    s, ok := Authorize(h, plan);
    if !ok { return; }
    ok := EnterOrRollBack(h, s);
    if !ok { return; }
    ok := FinishLocally(h, s);
  }

  // ----- connect openclaw, connect hermes -----

  // What a runtime setup works with: the configuration file and its two edits, the source file and its
  // patch, the tunnel credential the cloud returned, and whether it stays in the terminal. Discovery
  // accepts only .env and .json configuration paths, so the .py source is another file.
  datatype RuntimePlan = RuntimePlan(
    runtime: Runtime, path: Path, edited: File, withToken: File, src: Path, patched: string,
    kind: TunnelCredential, noService: bool)

  predicate WellFormed(plan: RuntimePlan) {
    plan.runtime != NoRuntime && plan.src != plan.path
  }

  function FreshRuns(plan: RuntimePlan): State {
    State(Link(Runs, plan.runtime, plan.noService, NoTunnel, None), CleanupPending, false, false, false)
  }

  // The setup still holds its own copy of the record: the copy it saved, whatever the disk has reached.
  ghost predicate Enrolled(h: Host, plan: RuntimePlan, s: State)
    reads h
  {
    && h.Valid() && h.saved.Saved? && h.saved.state.link.driver == Runs
    && !h.saved.state.restored && !h.saved.state.revoked
    && s == FreshRuns(plan).(stage := s.stage)
    && h.backup.Some? && h.backup.value.configPath == plan.path && h.backup.value.runtime == plan.runtime
  }

  // No backup of another runtime or path is in the way.
  predicate Free(backup: Option<Backup>, plan: RuntimePlan) {
    backup.None? || (backup.value.runtime == plan.runtime && backup.value.configPath == plan.path)
  }

  // prepareExternalRuntimeWithAdapter, repeated while the runtime is not ready and the timeout allows.
  method PrepareRuntime(h: Host, plan: RuntimePlan, retries: nat) returns (ok: bool)
    requires h.Valid() && h.saved.NoState?
    modifies h`files, h`backup, h`undoLost, h`clock, h`alive
    ensures h.Valid() && (h.alive ==> old(h.alive)) && h.undoLost == old(h.undoLost)
    ensures ok ==> h.backup.Some? && h.backup.value.configPath == plan.path && h.backup.value.runtime == plan.runtime
    ensures ok ==> At(h.files, plan.path) == Some(plan.edited)
    ensures h.smooth && old(Free(h.backup, plan)) ==> ok
    ensures old(h.backup.None? && h.DiesAfter(3)) ==> !ok && !h.alive && h.backup.Some? && h.files == old(h.files)[plan.path := plan.edited]
  {
    ok := Prepare(h, plan.runtime, plan.path, plan.edited);
    var left := retries;
    while !ok && left > 0
      invariant h.Valid() && (h.alive ==> old(h.alive)) && h.undoLost == old(h.undoLost)
      invariant ok ==> h.backup.Some? && h.backup.value.configPath == plan.path && h.backup.value.runtime == plan.runtime
      invariant ok ==> At(h.files, plan.path) == Some(plan.edited)
      invariant h.smooth && old(Free(h.backup, plan)) ==> ok
      invariant old(h.backup.None? && h.DiesAfter(3)) ==> !ok && !h.alive && h.backup.Some? && h.files == old(h.files)[plan.path := plan.edited]
    {
      ok := Prepare(h, plan.runtime, plan.path, plan.edited);
      left := left - 1;
    }
  }

  // Start the sign-in, wait for the approval, and check the credential it returned.
  method SignIn(h: Host) returns (ok: bool)
    requires h.Valid() && h.saved.NoState?
    modifies h`enrolled, h`clock, h`alive
    ensures h.Valid() && (h.alive ==> old(h.alive)) && (h.smooth ==> ok)
    ensures ok ==> h.enrolled
  {
    var o := h.Attempt();
    if o != Done { return false; }
    o := h.Attempt();
    if o != NotDone { h.enrolled := true; }
    if o == Done { o := h.Attempt(); }
    ok := o == Done;
  }

  // Prepare, sign in, and save the record as a cleanup checkpoint before the credential is used.
  method AuthorizeRuntime(h: Host, plan: RuntimePlan, retries: nat) returns (ok: bool)
    requires h.Valid() && h.saved.NoState? && WellFormed(plan)
    modifies h`saved, h`tunnel, h`files, h`backup, h`undoLost, h`enrolled, h`facts, h`clock, h`alive
    ensures h.Valid() && (h.alive ==> old(h.alive)) && h.undoLost == old(h.undoLost)
    ensures ok ==> Enrolled(h, plan, FreshRuns(plan)) && h.enrolled && Host.CanSave(plan.kind, h.tunnel)
    ensures plan.kind != LocalCredential ==> h.tunnel == old(h.tunnel).(token := h.tunnel.token)
    ensures h.smooth && old(Free(h.backup, plan)) ==> (ok <==> plan.kind != Missing)
    ensures old(h.backup.None? && h.DiesAfter(4)) ==>
              !ok && h.backup.Some? && h.files == old(h.files)[plan.path := plan.edited] && h.saved.NoState?
  {
    var consent := h.Attempt();
    if consent != Done { return false; }
    ok := PrepareRuntime(h, plan, retries);
    if ok { ok := EnrollRuntime(h, plan); }
  }

  // The sign-in and the checkpoint; a failure rolls the preparation back.
  method EnrollRuntime(h: Host, plan: RuntimePlan) returns (ok: bool)
    requires h.Valid() && h.saved.NoState? && WellFormed(plan)
    requires h.backup.Some? && h.backup.value.configPath == plan.path && h.backup.value.runtime == plan.runtime
    modifies h`saved, h`tunnel, h`files, h`backup, h`undoLost, h`enrolled, h`facts, h`clock, h`alive
    ensures h.Valid() && (h.alive ==> old(h.alive)) && h.undoLost == old(h.undoLost)
    ensures ok ==> Enrolled(h, plan, FreshRuns(plan)) && h.enrolled && Host.CanSave(plan.kind, h.tunnel)
    ensures plan.kind != LocalCredential ==> h.tunnel == old(h.tunnel).(token := h.tunnel.token)
    ensures h.smooth ==> (ok <==> plan.kind != Missing)
  {
    ok := SignIn(h);
    if !ok {
      var rolledBack := RollBackPreparation(h);
      return;
    }
    ok := h.SaveState(FreshRuns(plan), plan.kind, NO_FACTS);
    if !ok {
      var rolledBack := RollBackPreparation(h);
      var o := h.Attempt();
      if o != NotDone { h.enrolled := false; }
    }
  }

  // configure with the credential, then the local verification.
  method ConfigureRuntime(h: Host, plan: RuntimePlan) returns (ok: bool)
    requires Enrolled(h, plan, FreshRuns(plan))
    modifies h`files, h`facts, h`clock, h`alive
    ensures Enrolled(h, plan, FreshRuns(plan)) && (h.alive ==> old(h.alive))
    ensures ok ==> h.facts.credentialSet && h.facts.settingsProven && At(h.files, plan.path) == Some(plan.withToken)
    ensures h.smooth ==> ok
  {
    ok := EditConfig(h, plan.path, plan.withToken);
    if !ok { return; }
    h.facts := h.facts.(credentialSet := true);
    var o := h.Attempt();
    ok := o == Done;
    if ok { h.facts := h.facts.(settingsProven := true); }
  }

  // The record of a configured and locally verified runtime.
  method RecordConfigured(h: Host, plan: RuntimePlan) returns (ok: bool)
    requires Enrolled(h, plan, FreshRuns(plan))
    modifies h`saved, h`files, h`facts, h`clock, h`alive
    ensures Enrolled(h, plan, FreshRuns(plan)) && (h.alive ==> old(h.alive))
    ensures ok ==> h.saved.state.stage == LocalConfigured && h.facts.credentialSet && h.facts.settingsProven
    ensures ok ==> At(h.files, plan.path) == Some(plan.withToken) && CanUpdate(FreshRuns(plan), h.tunnel)
    ensures h.smooth ==> (ok <==> CanUpdate(FreshRuns(plan), h.tunnel))
  {
    ok := ConfigureRuntime(h, plan);
    if ok { ok := h.UpdateState(FreshRuns(plan).(stage := LocalConfigured)); }
  }

  // verifyExternalRuntimeWithRecovery.
  method VerifyWithRecovery(h: Host, plan: RuntimePlan, s: State) returns (ok: bool)
    requires Enrolled(h, plan, s) && WellFormed(plan)
    modifies h`files, h`backup, h`clock, h`alive
    ensures Enrolled(h, plan, s) && (h.alive ==> old(h.alive)) && (h.smooth ==> ok)
    ensures At(h.files, plan.path) == At(old(h.files), plan.path)
  {
    var o := h.Attempt();
    if o == Done || plan.runtime != Hermes { return o == Done; }
    ok := PatchSource(h, plan.src, plan.patched);
    if ok {
      o := h.Attempt();
      ok := o == Done;
    }
  }

  // waitForTerminalTunnelVerification: the verification again and again while its time lasts.
  method VerifyInTerminal(h: Host, plan: RuntimePlan, s: State, retries: nat) returns (ok: bool)
    requires Enrolled(h, plan, s) && WellFormed(plan)
    modifies h`files, h`backup, h`clock, h`alive
    ensures Enrolled(h, plan, s) && (h.alive ==> old(h.alive)) && (h.smooth ==> ok)
    ensures At(h.files, plan.path) == At(old(h.files), plan.path)
  {
    ok := VerifyWithRecovery(h, plan, s);
    var left := retries;
    while !ok && left > 0
      invariant Enrolled(h, plan, s) && (h.alive ==> old(h.alive)) && (h.smooth ==> ok)
      invariant At(h.files, plan.path) == At(old(h.files), plan.path)
    {
      ok := VerifyWithRecovery(h, plan, s);
      left := left - 1;
    }
  }

  datatype RuntimeResult = Connected | Stopped | CleanedUp | CleanedUpAfterInstall

  // The public verification after the service is online. Its cleanup works from the setup's own copy of
  // the record, which finishing the setup never told about the installed service.
  method VerifyPublicly(h: Host, plan: RuntimePlan, s: State) returns (r: RuntimeResult)
    requires Enrolled(h, plan, s) && WellFormed(plan)
    requires s.stage == LocalConfigured && h.facts.installOk && h.saved.state.stage == Online
    modifies h`saved, h`tunnel, h`backup, h`files, h`service, h`enrolled, h`undoLost, h`tried, h`clock, h`alive
    ensures h.Valid() && (h.alive ==> old(h.alive)) && h.undoLost == old(h.undoLost)
    ensures h.service == old(h.service) && !r.CleanedUp? && (h.smooth ==> r.Connected?)
    ensures r.Connected? ==> h.saved == old(h.saved) && At(h.files, plan.path) == At(old(h.files), plan.path) && h.enrolled == old(h.enrolled)
    ensures h.saved.NoState? ==> r.CleanedUpAfterInstall? && h.backup.None?
    ensures h.saved.Saved? ==> h.saved.state.link.driver == Runs
  {
    var target := h.Attempt();
    if target != Done {
      var removed := Cleanup(h, s);
      return CleanedUpAfterInstall;
    }
    var consent := h.Attempt();
    if consent != Done {
      var pending := h.UpdateState(s.(installed := true, stage := Installed));
      return Stopped;
    }
    var ok := VerifyWithRecovery(h, plan, s);
    if ok { return Connected; }
    ok := Cleanup(h, s);
    r := CleanedUpAfterInstall;
  }

  // setupExternalRuntimeConnection without a saved record.
  method SetUpRuntime(h: Host, plan: RuntimePlan, retries: nat) returns (r: RuntimeResult)
    requires h.Valid() && h.saved.NoState? && WellFormed(plan)
    modifies h`saved, h`tunnel, h`backup, h`files, h`service, h`enrolled, h`undoLost, h`facts, h`tried, h`clock, h`alive
    ensures h.Valid() && (h.alive ==> old(h.alive)) && h.undoLost == old(h.undoLost)
    ensures r.CleanedUpAfterInstall? ==> h.service
    ensures r.CleanedUp? ==> h.service == old(h.service)
    // connected: configured, verified and recorded, and online unless it stays in the terminal
    ensures r.Connected? ==>
              && h.saved.Saved? && h.enrolled && At(h.files, plan.path) == Some(plan.withToken)
              && h.saved.state.stage == (if plan.noService then LocalConfigured else Online) && (!plan.noService ==> h.service)
    // a first setup may die with the configuration edited
    ensures old(h.backup.None? && h.DiesAfter(4)) ==>
              h.backup.Some? && h.files == old(h.files)[plan.path := plan.edited] && h.saved.NoState?
    ensures r.Connected? ==> Writable(plan.kind, old(h.tunnel))
    ensures h.smooth && old(Free(h.backup, plan)) ==> (r.Connected? <==> Writable(plan.kind, old(h.tunnel)))
  {
    var ok := AuthorizeRuntime(h, plan, retries);
    if !ok { return Stopped; }
    r := CompleteRuntime(h, plan, retries);
  }

  // Configuration, verification, the service and the public check of an enrolled runtime.
  method CompleteRuntime(h: Host, plan: RuntimePlan, retries: nat) returns (r: RuntimeResult)
    requires Enrolled(h, plan, FreshRuns(plan)) && WellFormed(plan)
    modifies h`saved, h`tunnel, h`backup, h`files, h`service, h`enrolled, h`undoLost, h`facts, h`tried, h`clock, h`alive
    ensures h.Valid() && (h.alive ==> old(h.alive)) && h.undoLost == old(h.undoLost)
    ensures r.CleanedUpAfterInstall? ==> h.service
    ensures r.CleanedUp? ==> h.service == old(h.service)
    ensures r.Connected? ==>
              && h.saved.Saved? && h.enrolled == old(h.enrolled) && At(h.files, plan.path) == Some(plan.withToken)
              && h.saved.state.stage == (if plan.noService then LocalConfigured else Online) && (!plan.noService ==> h.service)
    ensures r.Connected? ==> old(CanUpdate(FreshRuns(plan), h.tunnel))
    ensures h.smooth ==> (r.Connected? <==> old(CanUpdate(FreshRuns(plan), h.tunnel)))
  {
    var ok := RecordConfigured(h, plan);
    if !ok {
      ok := Cleanup(h, FreshRuns(plan));
      return CleanedUp;
    }
    var s := FreshRuns(plan).(stage := LocalConfigured);
    if plan.noService {
      ok := VerifyInTerminal(h, plan, s, retries);
      return if ok then Connected else Stopped;
    }
    ok := Finish(h, s);
    if !ok { return Stopped; }
    r := VerifyPublicly(h, plan, s);
  }

  // ----- resume, disconnect, uninstall -----

  // The runs half of resumeRemoteConnectionSetup.
  method ResumeRuntime(h: Host) returns (ok: bool)
    requires h.Valid() && h.saved.Saved? && h.saved.state.link.driver == Runs && h.saved.state.stage != Online
    modifies h`saved, h`tunnel, h`backup, h`files, h`service, h`enrolled, h`undoLost, h`facts, h`tried, h`clock, h`alive
    ensures h.Valid() && (h.alive ==> old(h.alive)) && h.undoLost == old(h.undoLost)
    ensures ok ==> h.saved == Saved(Goal(Recovered(old(h.saved).state, h.tunnel)))
    ensures ok && StagesLeft(old(h.saved).state.stage) >= 2 ==> h.service
    ensures old(h.Frozen()) ==> !ok && h.saved == old(h.saved) && h.Frozen()
    // a record to be cleaned up is; any other stays
    ensures h.saved.NoState? ==> old(h.saved).state.stage == CleanupPending
    ensures h.smooth && Finishable(old(h.saved).state.stage) ==> (ok <==> CanUpdate(old(h.saved).state, h.tunnel))
    ensures h.smooth && old(h.saved).state.stage == CleanupPending && old(CanFinish(h, h.saved.state)) ==> h.saved.NoState?
  {
    var s := h.saved.state;
    if s.stage == CleanupPending {
      ok := Cleanup(h, s);
      return false;
    }
    ok := FinishRuntime(h);
  }

  // The stages that are left, then the verification.
  method FinishRuntime(h: Host) returns (ok: bool)
    requires h.Valid() && h.saved.Saved? && h.saved.state.link.driver == Runs
    requires h.saved.state.stage != Online && h.saved.state.stage != CleanupPending
    modifies h`saved, h`service, h`facts, h`clock, h`alive
    ensures h.Valid() && (h.alive ==> old(h.alive)) && h.saved.Saved?
    ensures ok ==> h.saved == Saved(Goal(Recovered(old(h.saved).state, h.tunnel)))
    ensures ok && StagesLeft(old(h.saved).state.stage) >= 2 ==> h.service
    ensures old(h.Frozen()) ==> !ok && h.saved == old(h.saved)
    ensures h.smooth && Finishable(old(h.saved).state.stage) ==> (ok <==> CanUpdate(old(h.saved).state, h.tunnel))
  {
    var s := h.saved.state;
    ok := Finish(h, s);
    if ok {
      DemotionIsJustified(s, h.saved.state, h.facts);
      ok := VerifyOrDemote(h, s.(stage := Installed, installed := true));
    }
  }

  // The verification of a finished runtime setup; if it fails, online is demoted to installed.
  method VerifyOrDemote(h: Host, demoted: State) returns (ok: bool)
    requires h.Valid() && h.saved.Saved? && h.Recordable(demoted) && demoted.link.driver == Runs
    modifies h`saved, h`clock, h`alive
    ensures h.Valid() && (h.alive ==> old(h.alive)) && h.saved.Saved? && (h.smooth ==> ok)
    ensures ok ==> h.saved == old(h.saved)
    ensures h.saved == old(h.saved) || CanUpdate(demoted, h.tunnel)
  {
    var o := h.Attempt();
    if o != Done {
      var recorded := h.UpdateState(demoted);
      return false;
    }
    o := h.Attempt();
    ok := o == Done;
  }

  lemma DemotionIsJustified(s: State, online: State, f: Facts)
    requires online.stage == Online && Justified(online, f) && s.stage != CleanupPending
    ensures Justified(s.(stage := Installed, installed := true), f)
  {
  }

  // resumeRemoteConnectionSetup.
  method Resume(h: Host) returns (ok: bool)
    requires h.Valid() && h.saved.Saved?
    modifies h
    ensures h.Valid() && h.undoLost == old(h.undoLost) && h.smooth == old(h.smooth)
    ensures h.smooth && old(h.saved).state.link.driver == Driver.Local && !old(h.saved).state.link.terminalOnly && old(Local.Resumable(h)) ==>
              ok && h.saved == Saved(Goal(Recovered(old(h.saved).state, h.tunnel)))
    ensures old(h.saved).state.stage == Online || old(h.saved).state.link.terminalOnly ==> h.saved == old(h.saved)
    ensures ok && old(h.saved).state.stage != Online && !old(h.saved).state.link.terminalOnly ==>
              h.saved == Saved(Goal(Recovered(old(h.saved).state, h.tunnel)))
    ensures old(h.Frozen()) ==> h.saved == old(h.saved) && h.Frozen()
  {
    var s := h.saved.state;
    if s.stage == Online || s.link.terminalOnly { return true; }
    if s.link.driver == Runs {
      ok := ResumeRuntime(h);
    } else {
      ok := Local.Resume(h);
    }
  }

  // restoreOrphanedExternalRuntimeConfiguration: a backup without a record is an interrupted setup.
  method RestoreOrphan(h: Host) returns (ok: bool)
    requires h.Valid() && h.saved.NoState?
    modifies h`files, h`backup, h`undoLost, h`clock, h`alive
    ensures h.Valid() && (h.alive ==> old(h.alive)) && h.undoLost == old(h.undoLost)
    ensures ok ==> h.backup.None? && (h.undoLost || h.files == h.pristine)
    ensures h.smooth ==> ok
  {
    if h.backup.None? {
      if !h.undoLost { UndoableWithoutBackup(h.files, h.pristine); }
      return true;
    }
    ok := RollBackPreparation(h);
  }

  // disconnectRemoteConnectionWithConfirmation.
  method Disconnect(h: Host, confirm: bool) returns (ok: bool)
    requires h.Valid()
    modifies h
    ensures h.Valid() && (h.alive ==> old(h.alive)) && h.smooth == old(h.smooth)
    ensures old(h.saved).NoState? || old(h.saved).state.link.driver == Runs ==>
              h.undoLost == old(h.undoLost) && (ok ==> h.backup.None? && (h.undoLost || h.files == h.pristine))
    ensures ok ==> h.saved.NoState? && (old(h.saved).NoState? || !h.enrolled)
    ensures h.smooth ==> (ok <==> old(h.saved.Saved? && h.saved.state.link.driver == Runs ==> CanFinish(h, h.saved.state)))
    ensures old(h.Frozen()) ==> h.saved.NoState? || (h.saved == old(h.saved) && h.Frozen())
    ensures old(h.Frozen()) && old(h.saved).state.link.driver == Runs ==> !ok && h.saved == old(h.saved) && h.Frozen()
  {
    if h.saved.NoState? {
      ok := RestoreOrphan(h);
      return;
    }
    if confirm {
      var consent := h.Attempt();
      if consent != Done { return false; }
    }
    if h.saved.state.link.driver == Runs {
      ok := Cleanup(h, h.saved.state);
    } else {
      ok := Local.Disconnect(h);
    }
  }

  // uninstallExternalRuntimeLocally: neither step is recorded, and the cloud is left alone.
  method UninstallRuntimeLocally(h: Host) returns (ok: bool)
    requires h.Valid() && h.saved.Saved? && h.saved.state.link.driver == Runs
    modifies h`saved, h`tunnel, h`backup, h`files, h`service, h`undoLost, h`clock, h`alive
    ensures h.Valid() && (h.alive ==> old(h.alive)) && h.undoLost == old(h.undoLost)
    ensures ok ==> h.saved.NoState? && (old(h.saved).state.installed ==> !h.service)
    ensures ok ==> h.undoLost || h.files == h.pristine
    ensures old(h.Frozen()) ==> h.saved.NoState? || (h.saved == old(h.saved) && h.Frozen())
    ensures h.smooth ==>
              (ok <==> old(h.saved).state.restored || (old(h.backup).Some? && old(h.backup).value.runtime == old(h.saved).state.link.runtime))
  {
    var s := h.saved.state;
    if s.installed {
      var o := h.Attempt();
      if o != NotDone { h.service := false; }
      if o != Done { return false; }
    }
    if !s.restored {
      if h.backup.None? || h.backup.value.runtime != s.link.runtime { return false; }
      ok := RestoreBackup(h);
      if !ok { return; }
    }
    ok := h.RemoveState();
  }

  // uninstallRemoteConnection for a local record.
  method UninstallLocal(h: Host, localOnly: bool) returns (ok: bool)
    requires h.Valid() && h.saved.Saved? && h.saved.state.link.driver == Driver.Local
    modifies h`saved, h`tunnel, h`backup, h`undoLost, h`config, h`service, h`credential, h`enrolled, h`clock, h`alive
    ensures h.Valid() && (h.alive ==> old(h.alive))
    ensures ok ==> h.saved.NoState? && !h.service && (!localOnly ==> !h.enrolled && !h.credential)
    ensures ok ==> h.backup.None? && (h.undoLost <==> old(h.undoLost) || (old(h.backup).Some? && h.files != h.pristine))
    ensures old(h.Frozen()) ==> h.saved.NoState? || (h.saved == old(h.saved) && h.Frozen())
    ensures h.smooth ==> ok
  {
    if !localOnly {
      ok := Local.RevokeAndRestore(h, h.saved.state);
      if !ok { return; }
    }
    var o := h.Attempt();
    if o != NotDone { h.service := false; }
    if o != Done { return false; }
    ok := h.RemoveState();
  }

  // uninstallRemoteConnection.
  method Uninstall(h: Host, localOnly: bool) returns (ok: bool)
    requires h.Valid()
    modifies h
    ensures h.Valid()
    ensures old(h.saved).NoState? || old(h.saved).state.link.driver == Runs ==> h.undoLost == old(h.undoLost)
    ensures ok ==> h.saved.NoState? && (old(h.saved).Saved? && old(h.saved).state.link.driver == Runs ==> h.undoLost || h.files == h.pristine)
    ensures ok && (old(h.saved).NoState? || old(h.saved).state.installed || old(h.saved).state.link.driver == Driver.Local) ==> !h.service
    ensures ok && old(h.saved).Saved? && !localOnly ==> !h.enrolled
    ensures ok && old(h.saved).Saved? && old(h.saved).state.link.driver == Driver.Local ==>
              (h.undoLost <==> old(h.undoLost) || (old(h.backup).Some? && h.files != h.pristine))
    ensures old(h.Frozen()) ==> h.saved.NoState? || (h.saved == old(h.saved) && h.Frozen())
    ensures old(h.Frozen()) && old(h.saved).state.link.driver == Runs && !localOnly ==> !ok && h.saved == old(h.saved) && h.Frozen()
  {
    if h.saved.NoState? {
      var o := h.Attempt();
      if o != NotDone { h.service := false; }
      return o == Done;
    }
    if h.saved.state.link.driver == Driver.Local {
      ok := UninstallLocal(h, localOnly);
    } else if localOnly {
      ok := UninstallRuntimeLocally(h);
    } else {
      ok := Cleanup(h, h.saved.state);
    }
  }

  // ----- whole runs -----

  datatype Command =
    | Setup(local: LocalPlan)
    | SetupRuntime(plan: RuntimePlan, retries: nat)
    | DisconnectCommand
    | UninstallCommand(localOnly: bool)

  predicate Permitted(c: Command, externalOnly: bool) {
    match c
    case Setup(_) => !externalOnly
    case SetupRuntime(plan, _) => WellFormed(plan)
    case _ => true
  }

  // The commands that may do away with a record without updating it.
  predicate Removes(c: Command, s: State) {
    match c
    case Setup(_) => false
    case SetupRuntime(plan, _) => s.link.driver == Driver.Local && s.link.runtime != plan.runtime
    case DisconnectCommand => s.link.driver == Driver.Local
    case UninstallCommand(localOnly) => s.link.driver == Driver.Local || localOnly
  }

  // setupExternalRuntimeConnection: a record of another runtime is disconnected first, after consent.
  method ConnectToRuntime(h: Host, plan: RuntimePlan, retries: nat)
    requires h.Valid() && WellFormed(plan)
    modifies h
    ensures h.Valid()
    ensures old(h.saved).NoState? || old(h.saved).state.link.driver == Runs ==> h.undoLost == old(h.undoLost)
    ensures old(h.Frozen()) && !Removes(SetupRuntime(plan, retries), old(h.saved).state) ==> h.saved == old(h.saved) && h.Frozen()
  {
    if h.saved.Saved? {
      if h.saved.state.link.runtime == plan.runtime {
        var resumed := Resume(h);
        return;
      }
      var consent := h.Attempt();
      if consent != Done { return; }
      var disconnected := Disconnect(h, false);
      if !disconnected { return; }
    }
    var r := SetUpRuntime(h, plan, retries);
  }

  method Perform(h: Host, c: Command)
    requires h.Valid() && Permitted(c, h.externalOnly)
    modifies h
    ensures h.Valid()
    ensures old(h.Frozen()) && !Removes(c, old(h.saved).state) ==> h.saved == old(h.saved) && h.Frozen()
    ensures old(h.Frozen()) && !c.SetupRuntime? ==> h.saved.NoState? || (h.saved == old(h.saved) && h.Frozen())
  {
    match c {
      case Setup(plan) =>
        var ok: bool;
        if h.saved.Saved? { ok := Resume(h); } else { ok := SetUpLocally(h, plan); }
      case SetupRuntime(plan, retries) => ConnectToRuntime(h, plan, retries);
      case DisconnectCommand => var ok := Disconnect(h, true);
      case UninstallCommand(localOnly) => var ok := Uninstall(h, localOnly);
    }
  }

  // Every run keeps the invariants, whichever effects fail and wherever its processes die: the stage on
  // disk is backed by effects that succeeded, the undo flags are true, and whatever differs from its
  // pre-Connect content is held by the backup on disk, always, if no local enrollment is involved. And a
  // frozen record stays as it is until a command that may remove it without an update.
  method Run(h: Host, commands: seq<Command>)
    requires h.Valid() && forall c :: c in commands ==> Permitted(c, h.externalOnly)
    modifies h
    ensures h.Valid()
    ensures h.externalOnly ==> Undoable(h.files, h.backup, h.pristine)
    ensures h.saved.Saved? ==> Justified(h.saved.state, h.facts)
    ensures old(h.Frozen()) && (forall c :: c in commands ==> !Removes(c, old(h.saved).state)) ==> h.saved == old(h.saved) && h.Frozen()
  {
    for i := 0 to |commands|
      invariant h.Valid()
      invariant old(h.Frozen()) && (forall c :: c in commands ==> !Removes(c, old(h.saved).state)) ==> h.saved == old(h.saved) && h.Frozen()
    {
      h.Restart(false);
      Perform(h, commands[i]);
    }
  }

  // A frozen record through any commands: it stays as it is, or the last command run is one that removes it.
  // A setup of another runtime, which may replace a local record, may then save its own.
  method RunFrozen(h: Host, commands: seq<Command>) returns (n: nat)
    requires h.Valid() && h.Frozen() && forall c :: c in commands ==> Permitted(c, h.externalOnly)
    modifies h
    ensures h.Valid() && n <= |commands|
    ensures h.saved == old(h.saved) && h.Frozen() ==> n == |commands|
    ensures !(h.saved == old(h.saved) && h.Frozen()) ==>
              n > 0 && Removes(commands[n - 1], old(h.saved).state) && (h.saved.NoState? || commands[n - 1].SetupRuntime?)
  {
    var record := h.saved;
    n := 0;
    while n < |commands| && h.saved == record && !CanUpdate(record.state, h.tunnel)
      invariant h.Valid() && n <= |commands| && record.Saved?
      invariant !(h.saved == record && h.Frozen()) ==>
                  n > 0 && Removes(commands[n - 1], record.state) && (h.saved.NoState? || commands[n - 1].SetupRuntime?)
    {
      h.Restart(false);
      Perform(h, commands[n]);
      n := n + 1;
    }
  }

  // And after any run of runtime commands alone every runtime file can be had back: by one untroubled
  // disconnect without a record, or one untroubled local uninstall with one.
  method RunThenRestore(h: Host, commands: seq<Command>)
    requires h.Valid() && h.externalOnly && forall c :: c in commands ==> Permitted(c, h.externalOnly)
    modifies h
    ensures h.Valid()
    ensures h.files == h.pristine
  {
    Run(h, commands);
    h.Restart(true);
    if h.saved.NoState? {
      var restored := RestoreOrphan(h);
    } else if h.backup.Some? {
      var uninstalled := UninstallRuntimeLocally(h);
    } else {
      UndoableWithoutBackup(h.files, h.pristine);
    }
  }

  // A first setup cut anywhere, then one untroubled resume of what it left: if a record is left that can
  // still be updated, the resume ends in the record an untroubled setup ends in.
  method SetUpThenResume(h: Host, plan: LocalPlan) returns (resumable: bool)
    requires h.Valid() && !h.externalOnly && h.saved.NoState?
    requires plan.kind == LocalCredential && !plan.noService
    modifies h
    ensures h.Valid()
    ensures resumable ==> h.saved == Saved(Goal(Host.WithTunnel(FreshLocal(plan, old(h.config)), plan.kind)))
    ensures !resumable ==> h.saved.NoState? || !CanUpdate(h.saved.state, h.tunnel)
  {
    var first := SetUpLocally(h, plan);
    h.Restart(true);
    resumable := h.saved.Saved? && CanUpdate(h.saved.state, h.tunnel);
    if resumable {
      ghost var s := h.saved.state;
      assert s.link == Host.WithTunnel(FreshLocal(plan, old(h.config)), plan.kind).link;
      assert s.stage == Online || Local.Resumable(h) by {
        assert s.link.checkpoint == Some(Checkpoint(old(h.config).service, plan.applied));
        ApplyRefusesThirdValues(h.config, old(h.config).service, plan.applied);
        assert Justified(s, h.facts);
      }
      var ok := Resume(h);
    }
  }

  // With local enrollments among the commands the backup is not safe: from a fresh machine, a runtime setup
  // that dies after its first edit, then an untroubled local setup and disconnect, delete the backup and
  // leave the edit.
  method LocalTeardownLosesTheUndo(files: map<Path, File>, config: ServiceConfig, runtimePlan: RuntimePlan, plan: LocalPlan)
    returns (h: Host)
    requires WellFormed(runtimePlan) && plan.kind == LocalCredential && At(files, runtimePlan.path) != Some(runtimePlan.edited)
    ensures fresh(h) && h.Valid() && h.pristine == files
    ensures h.undoLost && h.backup.None? && h.saved.NoState? && h.files == files[runtimePlan.path := runtimePlan.edited] != files
  {
    h := new Host(n => if n == 4 then DieAfter else Succeed, false, files, config);
    var r := SetUpRuntime(h, runtimePlan, 0);
    h.Restart(true);
    var connected := SetUpLocally(h, plan);
    h.Restart(true);
    var disconnected := Local.Disconnect(h);
  }

  // A setup's own cleanup leaves the service: from a fresh machine, an untroubled runtime setup up to its
  // public verification, and the cleanup that VerifyPublicly runs when that fails.
  method FailedVerificationLeavesTheService(files: map<Path, File>, config: ServiceConfig, plan: RuntimePlan) returns (h: Host)
    requires WellFormed(plan) && plan.kind == LocalCredential && !plan.noService
    ensures fresh(h) && h.Valid() && h.pristine == files
    ensures h.saved.NoState? && h.backup.None? && !h.enrolled && h.files == files && h.service
  {
    h := new Host(n => Succeed, true, files, config);
    h.Restart(true);
    var authorized := AuthorizeRuntime(h, plan, 0);
    CompleteUnverified(h, plan);
  }

  // CompleteRuntime with nothing failing but the public verification.
  method CompleteUnverified(h: Host, plan: RuntimePlan)
    requires Enrolled(h, plan, FreshRuns(plan)) && WellFormed(plan)
    requires h.smooth && !plan.noService && CanUpdate(FreshRuns(plan), h.tunnel)
    modifies h`saved, h`tunnel, h`backup, h`files, h`service, h`enrolled, h`undoLost, h`facts, h`tried, h`clock, h`alive
    ensures h.Valid() && h.undoLost == old(h.undoLost)
    ensures h.saved.NoState? && h.backup.None? && !h.enrolled && (h.undoLost || h.files == h.pristine) && h.service
  {
    var configured := RecordConfigured(h, plan);
    var s := FreshRuns(plan).(stage := LocalConfigured);
    var online := Finish(h, s);
    var removed := Cleanup(h, s);
  }
}
