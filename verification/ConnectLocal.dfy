// A local enrollment ("connect setup"): registering the device credential and applying the service
// settings, resuming from the saved record, and the teardowns.
module ConnectLocal {
  import opened Wrappers
  import opened ConnectService
  import opened ConnectState
  import opened ConnectHost
  import opened ConnectLifecycle

  // applyAuthorizedConnectConfig on the configuration file.
  method ApplyAuthorizedConfig(h: Host, s: State) returns (ok: bool)
    requires h.Valid()
    modifies h`config, h`clock, h`alive
    ensures h.Valid() && (h.alive ==> old(h.alive))
    ensures h.config == old(h.config)
            || (s.link.checkpoint.Some? && h.config == old(h.config).(service := s.link.checkpoint.value.applied))
    ensures ok ==> InForce(s, h.config)
    ensures h.smooth ==> (ok <==> Appliable(s, old(h.config)))
    ensures !old(h.alive) ==> h.config == old(h.config) && !ok
  {
    if s.link.checkpoint.None? { return false; }
    var loaded := h.Attempt();
    if loaded != Done { return false; }
    var next := Apply(h.config, s.link.checkpoint.value.previous, s.link.checkpoint.value.applied);
    if next.None? { return false; }
    if next.value == h.config { return true; }
    var o := h.Attempt();
    if o != NotDone { h.config := next.value; }
    ok := o == Done;
  }

  // The settings the record is to apply are in force.
  predicate InForce(s: State, config: ServiceConfig) {
    s.link.checkpoint.Some? && config.service == s.link.checkpoint.value.applied
  }

  predicate Appliable(s: State, config: ServiceConfig) {
    s.link.checkpoint.Some? && Apply(config, s.link.checkpoint.value.previous, s.link.checkpoint.value.applied).Some?
  }

  method RegisterCredential(h: Host) returns (ok: bool)
    requires h.Valid()
    modifies h`credential, h`facts, h`clock, h`alive
    ensures h.Valid() && (h.alive ==> old(h.alive)) && (h.smooth ==> ok)
    ensures h.facts == if ok then old(h.facts).(credentialSet := true) else old(h.facts)
    ensures ok || old(h.credential) ==> h.credential
  {
    var o := h.Attempt();
    if o != NotDone { h.credential := true; }
    ok := o == Done;
    if ok { h.facts := h.facts.(credentialSet := true); }
  }

  // registerLocalConnectCredential, then the settings.
  method EnterLocally(h: Host, s: State) returns (ok: bool)
    requires h.Valid()
    modifies h`config, h`credential, h`facts, h`clock, h`alive
    ensures h.Valid() && (h.alive ==> old(h.alive))
    ensures ok ==> h.facts.credentialSet && h.facts.settingsProven
    ensures ok ==> h.credential && InForce(s, h.config)
    ensures h.config == old(h.config)
            || (s.link.checkpoint.Some? && h.config == old(h.config).(service := s.link.checkpoint.value.applied))
    ensures h.smooth ==> (ok <==> Appliable(s, old(h.config)))
  {
    ok := RegisterCredential(h);
    if !ok { return; }
    ok := ApplyAuthorizedConfig(h, s);
    if ok { h.facts := h.facts.(settingsProven := true); }
  }

  // ----- teardown -----

  // The last steps of a rollback. Deleting the record also deletes a runtime backup that an
  // interrupted runtime setup may have left: that is exactly when an undo is lost.
  method RevokeAndForget(h: Host) returns (ok: bool)
    requires h.Valid() && !h.externalOnly
    modifies h`saved, h`tunnel, h`backup, h`undoLost, h`credential, h`enrolled, h`clock, h`alive
    ensures h.Valid() && (h.alive ==> old(h.alive))
    ensures ok ==> h.saved.NoState? && !h.credential && !h.enrolled && h.backup.None?
    ensures h.saved == old(h.saved) || h.saved.NoState?
    ensures h.undoLost ==> old(h.undoLost) || (old(h.backup).Some? && h.files != h.pristine)
    ensures ok ==> (h.undoLost <==> old(h.undoLost) || (old(h.backup).Some? && h.files != h.pristine))
    ensures h.smooth ==> ok
  {
    var o := h.Attempt();
    if o != NotDone { h.credential := false; }
    if o != Done { return false; }
    o := h.Attempt();
    if o != NotDone { h.enrolled := false; }
    if o != Done { return false; }
    ok := h.RemoveState();
  }

  // rollbackNewRemoteConnectionSetup: the previous settings come back first.
  method RollBackSetup(h: Host, s: State) returns (ok: bool)
    requires h.Valid() && !h.externalOnly
    modifies h`saved, h`tunnel, h`backup, h`undoLost, h`config, h`credential, h`enrolled, h`clock, h`alive
    ensures h.Valid() && (h.alive ==> old(h.alive))
    ensures ok ==> h.saved.NoState? && !h.credential && !h.enrolled
    ensures h.saved == old(h.saved) || h.saved.NoState?
    ensures h.config == old(h.config) || (s.link.checkpoint.Some? && h.config == old(h.config).(service := s.link.checkpoint.value.previous))
    ensures ok && s.link.checkpoint.Some? ==> h.config == old(h.config).(service := s.link.checkpoint.value.previous)
    ensures h.undoLost ==> old(h.undoLost) || (old(h.backup).Some? && h.files != h.pristine)
    ensures ok ==> (h.undoLost <==> old(h.undoLost) || (old(h.backup).Some? && h.files != h.pristine))
    ensures h.smooth ==> ok
  {
    if s.link.checkpoint.Some? {
      var o := h.Attempt();
      if o == Done {
        o := h.Attempt();
        if o != NotDone { h.config := h.config.(service := s.link.checkpoint.value.previous); }
      }
      if o != Done { return false; }
    }
    ok := RevokeAndForget(h);
  }

  // restoreConnectServiceConfig on the configuration file.
  method RestoreServiceConfig(h: Host, s: State) returns (ok: bool)
    requires h.Valid()
    modifies h`config, h`clock, h`alive
    ensures h.Valid() && (h.alive ==> old(h.alive))
    ensures h.config == old(h.config)
            || (s.link.checkpoint.Some? && h.config == Restore(old(h.config), s.link.checkpoint.value.previous, s.link.checkpoint.value.applied))
    ensures ok && s.link.checkpoint.Some? ==> h.config == Restore(old(h.config), s.link.checkpoint.value.previous, s.link.checkpoint.value.applied)
    ensures h.smooth ==> ok
  {
    if s.link.checkpoint.None? { return true; }
    var loaded := h.Attempt();
    if loaded != Done { return false; }
    var next := Restore(h.config, s.link.checkpoint.value.previous, s.link.checkpoint.value.applied);
    if next == h.config { return true; }
    var o := h.Attempt();
    if o != NotDone { h.config := next; }
    ok := o == Done;
  }

  // Cloud, local credential, settings: what disconnect and uninstall have in common.
  method RevokeAndRestore(h: Host, s: State) returns (ok: bool)
    requires h.Valid()
    modifies h`config, h`credential, h`enrolled, h`clock, h`alive
    ensures h.Valid() && (h.alive ==> old(h.alive))
    ensures ok ==> !h.credential && !h.enrolled
    ensures ok && s.link.checkpoint.Some? ==> h.config == Restore(old(h.config), s.link.checkpoint.value.previous, s.link.checkpoint.value.applied)
    ensures h.smooth ==> ok
  {
    var o := h.Attempt();
    if o != NotDone { h.enrolled := false; }
    if o != Done { return false; }
    o := h.Attempt();
    if o != NotDone { h.credential := false; }
    if o != Done { return false; }
    ok := RestoreServiceConfig(h, s);
  }

  // The local half of disconnect: stop the service, revoke, restore the settings, forget.
  method Disconnect(h: Host) returns (ok: bool)
    requires h.Valid() && !h.externalOnly && h.saved.Saved?
    modifies h`saved, h`tunnel, h`backup, h`undoLost, h`config, h`service, h`credential, h`enrolled, h`clock, h`alive
    ensures h.Valid() && (h.alive ==> old(h.alive))
    ensures ok ==> h.saved.NoState? && !h.credential && !h.enrolled && (old(h.saved).state.installed ==> !h.service)
    ensures ok && old(h.saved).state.link.checkpoint.Some? ==>
              h.config == Restore(old(h.config), old(h.saved).state.link.checkpoint.value.previous,
                                  old(h.saved).state.link.checkpoint.value.applied)
    ensures ok ==> h.backup.None?
    ensures ok ==> (h.undoLost <==> old(h.undoLost) || (old(h.backup).Some? && h.files != h.pristine))
    ensures old(h.Frozen()) ==> h.saved.NoState? || (h.saved == old(h.saved) && h.Frozen())
    ensures h.smooth ==> ok
  {
    var s := h.saved.state;
    if s.installed {
      var o := h.Attempt();
      if o != NotDone { h.service := false; }
      if o != Done { return false; }
    }
    ok := RevokeAndRestore(h, s);
    if ok { ok := h.RemoveState(); }
  }

  // ----- resume -----

  // The local half of resumeRemoteConnectionSetup.
  method Resume(h: Host) returns (ok: bool)
    requires h.Valid() && h.saved.Saved?
    requires h.saved.state.stage != Online && h.saved.state.link.driver == Local
    modifies h`saved, h`config, h`credential, h`service, h`facts, h`clock, h`alive
    ensures h.Valid() && (h.alive ==> old(h.alive))
    ensures h.saved == old(h.saved)
            || (h.saved.Saved? && Goal(h.saved.state) == Goal(Recovered(old(h.saved).state, h.tunnel)))
    ensures old(h.Frozen()) ==> !ok && h.saved == old(h.saved)
    ensures h.smooth ==> (ok <==> old(Resumable(h)))
    ensures ok ==> h.saved == Saved(Goal(Recovered(old(h.saved).state, h.tunnel)))
    ensures ok && old(h.saved).state.stage == Authorized ==>
              h.credential && h.service && InForce(old(h.saved).state, h.config)
  {
    var s := h.saved.state;
    if s.stage == Authorized {
      ok := EnterAndRecord(h);
      if !ok { return; }
      s := s.(stage := LocalConfigured);
    }
    ok := Finish(h, s);
  }

  // Credential and settings, then the record of them.
  method EnterAndRecord(h: Host) returns (ok: bool)
    requires h.Valid() && h.saved.Saved? && h.saved.state.stage == Authorized && h.saved.state.link.driver == Local
    modifies h`saved, h`config, h`credential, h`facts, h`clock, h`alive
    ensures h.Valid() && (h.alive ==> old(h.alive))
    ensures var s := old(h.saved).state.(stage := LocalConfigured);
            && (h.saved == old(h.saved) || (CanUpdate(s, h.tunnel) && h.saved == Saved(Recovered(s, h.tunnel))))
            && (ok ==> h.saved == Saved(Recovered(s, h.tunnel)) && CanUpdate(s, h.tunnel) && h.Recordable(s))
    ensures ok ==> h.credential && InForce(old(h.saved).state, h.config)
    ensures h.smooth ==> (ok <==> old(Resumable(h)))
  {
    var s := h.saved.state;
    ok := EnterLocally(h, s);
    if ok { ok := h.UpdateState(s.(stage := LocalConfigured)); }
  }

  // A resume with no failing effect reaches online exactly from these records.
  ghost predicate Resumable(h: Host)
    reads h
  {
    && h.saved.Saved? && CanUpdate(h.saved.state, h.tunnel)
    && (Finishable(h.saved.state.stage) || (h.saved.state.stage == Authorized && Appliable(h.saved.state, h.config)))
  }
}
