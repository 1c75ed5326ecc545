// The three service settings Connect owns in the OR3 configuration: how a setup applies them and
// how a disconnect puts them back without undoing edits made in between.
module ConnectService {
  import opened Wrappers

  // Service.Enabled, Service.Listen and Service.TrustedBrowserOrigins.
  datatype ServiceSettings = ServiceSettings(enabled: bool, listen: string, origins: seq<string>)

  // The persisted configuration: the service settings and everything else.
  datatype ServiceConfig = ServiceConfig(service: ServiceSettings, rest: string)

  predicate CanResume(current: ServiceSettings, previous: ServiceSettings, applied: ServiceSettings) {
    && (current.enabled == previous.enabled || current.enabled == applied.enabled)
    && (current.listen == previous.listen || current.listen == applied.listen)
    && (current.origins == previous.origins || current.origins == applied.origins)
  }

  // applyAuthorizedConnectConfig on the loaded configuration; None is the refusal.
  function Apply(cfg: ServiceConfig, previous: ServiceSettings, applied: ServiceSettings): Option<ServiceConfig> {
    if cfg.service == applied then Some(cfg)
    else if !CanResume(cfg.service, previous, applied) then None
    else Some(cfg.(service := applied))
  }

  // restoreConnectServiceConfig on the loaded configuration.
  function Restore(cfg: ServiceConfig, previous: ServiceSettings, applied: ServiceSettings): ServiceConfig {
    var s := cfg.service;
    cfg.(service := ServiceSettings(
      if s.enabled == applied.enabled then previous.enabled else s.enabled,
      if s.listen == applied.listen then previous.listen else s.listen,
      if s.origins == applied.origins then previous.origins else s.origins))
  }

  // A three-way merge: a field left alone since Connect touched it returns to its previous value,
  // whether or not Connect's own write took effect; a field set to anything else keeps that value.
  ghost predicate Merged<T(!new)>(before: T, after: T, previous: T, applied: T) {
    after == (if before == previous || before == applied then previous else before)
  }

  lemma RestoreIsThreeWayMerge(cfg: ServiceConfig, previous: ServiceSettings, applied: ServiceSettings)
    ensures var r := Restore(cfg, previous, applied);
            && r.rest == cfg.rest
            && Merged(cfg.service.enabled, r.service.enabled, previous.enabled, applied.enabled)
            && Merged(cfg.service.listen, r.service.listen, previous.listen, applied.listen)
            && Merged(cfg.service.origins, r.service.origins, previous.origins, applied.origins)
    ensures Restore(Restore(cfg, previous, applied), previous, applied) == Restore(cfg, previous, applied)
  {
  }

  // Apply refuses exactly the configurations whose owned fields were edited to a third value, never
  // touches anything else, and applying twice is applying once.
  lemma ApplyRefusesThirdValues(cfg: ServiceConfig, previous: ServiceSettings, applied: ServiceSettings)
    ensures Apply(cfg, previous, applied).None? <==>
            || cfg.service.enabled !in {previous.enabled, applied.enabled}
            || cfg.service.listen !in {previous.listen, applied.listen}
            || cfg.service.origins !in {previous.origins, applied.origins}
    ensures Apply(cfg, previous, applied).Some? ==>
              var next := Apply(cfg, previous, applied).value;
              && next == cfg.(service := applied)
              && Apply(next, previous, applied) == Some(next)
              && Restore(next, previous, applied) == cfg.(service := previous)
  {
  }
}
