// The part of a Connect setup every driver shares: installing the background service and waiting for
// the connection to come online, and the service settings of a local enrollment.
module ConnectLifecycle {
  import opened Wrappers
  import opened ConnectService
  import opened ConnectState
  import opened ConnectHost

  // The record of a finished setup that agrees with s on everything else.
  function Goal(s: State): State {
    s.(stage := Online, installed := true)
  }

  // How many stages finishRemoteConnectionSetup has yet to pass through.
  function StagesLeft(stage: Stage): nat {
    match stage
    case LocalConfigured => 3
    case ServiceInstalling => 2
    case Installed => 1
    case _ => 0
  }

  predicate Finishable(stage: Stage) {
    StagesLeft(stage) > 0
  }

  function NextStage(stage: Stage): Stage {
    match stage
    case LocalConfigured => ServiceInstalling
    case ServiceInstalling => Installed
    case _ => Online
  }

  // The record after one more stage: installed from the installation on.
  function Advanced(s: State): State {
    s.(stage := NextStage(s.stage), installed := s.installed || !s.stage.LocalConfigured?)
  }

  ghost predicate InStep(h: Host, s: State)
    reads h
  {
    h.saved.Saved? && h.saved.state.link.driver == s.link.driver && h.saved.state.stage == s.stage
  }

  // What the effect of a stage adds to the facts when it succeeds.
  function Learned(f: Facts, stage: Stage): Facts {
    match stage
    case ServiceInstalling => f.(installOk := true, probeOk := false)
    case Installed => f.(probeOk := true)
    case _ => f
  }

  // Once the effect of a stage has succeeded, the next stage may be recorded.
  lemma NextStageIsJustified(s: State, f: Facts)
    requires Justified(s, f) && Finishable(s.stage)
    ensures Justified(Advanced(s), Learned(f, s.stage))
  {
  }

  // The effect of a stage: nothing, currentServiceSpec and installService, or verifyOnline. An ambiguous
  // failure to install may leave the service in place.
  method StageEffect(h: Host, stage: Stage) returns (ok: bool)
    requires h.Valid() && Finishable(stage)
    requires h.saved.Saved? ==> h.saved.state.stage == stage
    modifies h`service, h`facts, h`clock, h`alive
    ensures h.Valid() && (h.alive ==> old(h.alive))
    ensures h.facts == if ok then Learned(old(h.facts), stage) else old(h.facts)
    ensures old(h.service) ==> h.service
    ensures ok && stage.ServiceInstalling? ==> h.service
    ensures h.smooth ==> ok
    ensures !old(h.alive) ==> h.service == old(h.service) && (ok ==> stage.LocalConfigured?)
  {
    if stage.LocalConfigured? { return true; }
    var o := h.Attempt();
    if stage.ServiceInstalling? && o == Done {
      o := h.Attempt();
      if o != NotDone { h.service := true; }
    }
    ok := o == Done;
    if ok { h.facts := Learned(h.facts, stage); }
  }

  // One pass of the stage loop: the stage's effect, then its record.
  method FinishStage(h: Host, s: State) returns (ok: bool)
    requires h.Valid() && h.Recordable(s) && InStep(h, s) && Finishable(s.stage)
    modifies h`saved, h`service, h`facts, h`clock, h`alive
    ensures h.Valid() && (h.alive ==> old(h.alive))
    ensures h.saved == old(h.saved) || (CanUpdate(s, h.tunnel) && h.saved == Saved(Recovered(Advanced(s), h.tunnel)))
    ensures ok ==> CanUpdate(s, h.tunnel) && h.saved == Saved(Recovered(Advanced(s), h.tunnel))
    ensures ok ==> h.Recordable(Advanced(s))
    ensures h.smooth ==> ok == CanUpdate(s, h.tunnel)
    ensures ok && s.stage.ServiceInstalling? ==> h.service
    ensures old(h.service) ==> h.service
    ensures h.facts in {old(h.facts), Learned(old(h.facts), s.stage)}
    ensures !old(h.alive) ==> h.saved == old(h.saved) && h.service == old(h.service)
  {
    NextStageIsJustified(s, h.facts);
    ok := StageEffect(h, s.stage);
    if ok { ok := h.UpdateState(Advanced(s)); }
  }

  // Only the facts about the service and its health may have changed, and an install is not forgotten.
  predicate ServiceFactsOnly(before: Facts, after: Facts) {
    && after == before.(installOk := after.installOk, probeOk := after.probeOk)
    && (before.installOk ==> after.installOk)
  }

  // s is where the loop may stand after starting from s0: at s0 itself, or at a later stage of the same
  // connection that has been recorded.
  predicate Reached(s0: State, s: State, saved: StateFile, tunnel: TunnelFiles) {
    && Goal(s) == Goal(s0)
    && (s != s0 ==> && StagesLeft(s.stage) < StagesLeft(s0.stage) && CanUpdate(s0, tunnel)
                    && saved == Saved(Recovered(s, tunnel))
                    && (Finishable(s.stage) || s == Goal(s)))
  }

  lemma AdvanceReaches(s0: State, s: State, saved: StateFile, tunnel: TunnelFiles)
    requires Reached(s0, s, saved, tunnel) && Finishable(s.stage)
    ensures Finishable(s0.stage) && CanUpdate(s, tunnel) == CanUpdate(s0, tunnel)
    ensures Advanced(s) != s0 && StagesLeft(Advanced(s).stage) < StagesLeft(s.stage) <= StagesLeft(s0.stage)
    ensures CanUpdate(s, tunnel) ==> Reached(s0, Advanced(s), Saved(Recovered(Advanced(s), tunnel)), tunnel)
    ensures Goal(Recovered(Advanced(s), tunnel)) == Goal(Recovered(s0, tunnel))
  {
  }

  lemma ReachedTheEnd(s0: State, s: State, saved: StateFile, tunnel: TunnelFiles)
    requires Reached(s0, s, saved, tunnel) && !Finishable(s.stage)
    ensures s == s0 || (saved == Saved(Goal(Recovered(s0, tunnel))) && CanUpdate(s0, tunnel) && s.stage == Online)
  {
  }

  // One pass of the loop that started at s0.
  method Pass(h: Host, s0: State, s: State) returns (s': State, ok: bool)
    requires h.Valid() && h.Recordable(s) && InStep(h, s) && Finishable(s.stage) && Reached(s0, s, h.saved, h.tunnel)
    modifies h`saved, h`service, h`facts, h`clock, h`alive
    ensures h.Valid() && (h.alive ==> old(h.alive))
    ensures ok ==> h.Recordable(s') && InStep(h, s') && Reached(s0, s', h.saved, h.tunnel) && s' != s0
                   && StagesLeft(s'.stage) == StagesLeft(s.stage) - 1
    ensures h.saved == old(h.saved)
            || (CanUpdate(s0, h.tunnel) && h.saved.Saved? && Goal(h.saved.state) == Goal(Recovered(s0, h.tunnel)))
    ensures h.smooth ==> ok == CanUpdate(s0, h.tunnel)
    ensures old(h.service) || (ok && s.stage.ServiceInstalling?) ==> h.service
    ensures ServiceFactsOnly(old(h.facts), h.facts)
    ensures !old(h.alive) ==> h.saved == old(h.saved) && h.service == old(h.service)
  {
    AdvanceReaches(s0, s, h.saved, h.tunnel);
    ok := FinishStage(h, s);
    s' := Advanced(s);
  }

  // finishRemoteConnectionSetup. It works on a copy of the record: the caller's copy does not change.
  method Finish(h: Host, s0: State) returns (ok: bool)
    requires h.Valid() && h.Recordable(s0) && InStep(h, s0)
    modifies h`saved, h`service, h`facts, h`clock, h`alive
    ensures h.Valid() && (h.alive ==> old(h.alive))
    ensures h.saved == old(h.saved)
            || (CanUpdate(s0, h.tunnel) && h.saved.Saved? && Goal(h.saved.state) == Goal(Recovered(s0, h.tunnel)))
    ensures ok ==> s0.stage == Online || h.saved == Saved(Goal(Recovered(s0, h.tunnel)))
    ensures h.smooth ==> (ok <==> s0.stage == Online || (Finishable(s0.stage) && CanUpdate(s0, h.tunnel)))
    ensures ok && StagesLeft(s0.stage) >= 2 ==> h.service
    ensures ServiceFactsOnly(old(h.facts), h.facts)
    ensures !old(h.alive) ==> h.saved == old(h.saved) && h.service == old(h.service)
  {
    var s := s0;
    while Finishable(s.stage)
      invariant h.Valid() && h.Recordable(s) && InStep(h, s) && (h.alive ==> old(h.alive))
      invariant Reached(s0, s, h.saved, h.tunnel)
      invariant s == s0 ==> h.saved == old(h.saved)
      invariant h.saved == old(h.saved) || (CanUpdate(s0, h.tunnel) && Goal(h.saved.state) == Goal(Recovered(s0, h.tunnel)))
      invariant StagesLeft(s.stage) < 2 <= StagesLeft(s0.stage) ==> h.service
      invariant ServiceFactsOnly(old(h.facts), h.facts)
      invariant !old(h.alive) ==> h.saved == old(h.saved) && h.service == old(h.service)
      decreases StagesLeft(s.stage)
    {
      var next;
      next, ok := Pass(h, s0, s);
      if !ok { return; }
      s := next;
    }
    ReachedTheEnd(s0, s, h.saved, h.tunnel);
    ok := s.stage == Online;
  }
}
