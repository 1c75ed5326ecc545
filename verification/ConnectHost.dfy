// The host machine as Connect sees it: durable state changed only by effects whose outcome the
// environment decides, and the operations of internal/connect on the saved record.
module ConnectHost {
  import opened Wrappers
  import opened ConnectService
  import opened ConnectState

  // What the environment does to the n-th effect: it takes place and is reported so, it takes place but
  // is reported as failed, it does not take place, or the process dies just after or just before it.
  datatype Fate = Succeed | FailAfter | Fail | DieAfter | Die

  // What the running process sees. Once the process is dead every effect is NotDone: the rest of the
  // operation changes nothing, so what an operation guarantees for every script it guarantees wherever
  // the process may die inside it.
  datatype Outcome = Done | Ambiguous | NotDone

  datatype Undo = StopService | RestoreRuntime | RevokeCloud

  // The kinds of tunnel credential a cloud approval can carry.
  datatype TunnelCredential = Missing | LegacyToken | LocalCredential

  class Host {
    // on disk
    var saved: StateFile
    var tunnel: TunnelFiles
    var backup: Option<Backup>
    var files: map<Path, File>
    var config: ServiceConfig
    // outside
    var service: bool      // the background service is installed
    var credential: bool   // the local device credential is registered
    var enrolled: bool     // the cloud environment is live
    // what has happened
    var facts: Facts
    ghost var undoLost: bool          // a teardown has deleted a backup that was still needed
    ghost var tried: seq<Undo>        // every undo cleanup has attempted so far
    // the environment
    const script: nat -> Fate
    var smooth: bool                  // every effect succeeds from now on, whatever the script says
    var clock: nat
    var alive: bool                   // the process has not died
    const externalOnly: bool          // no local ("connect setup") enrollment exists or is started
    ghost const pristine: map<Path, File>  // every runtime file before Connect first ran

    // The invariant of the durable state.
    ghost predicate Valid()
      reads this
    {
      && (!undoLost ==> Undoable(files, backup, pristine))
      && (backup.Some? && backup.value.source.Some? ==> saved.Saved? && saved.state.link.driver == Runs)
      && (saved.Saved? ==> Recordable(saved.state))
      && (externalOnly ==> !undoLost)
      && (smooth ==> alive)
    }

    ghost predicate Recordable(s: State)
      reads this
    {
      && Justified(s, facts)
      && FlagsHold(s, files, pristine, undoLost, enrolled)
      && (externalOnly ==> s.link.driver == Runs)
      && (s.link.driver == Runs && backup.Some? ==> backup.value.runtime == s.link.runtime)
    }

    // No operation can update the saved record.
    ghost predicate Frozen()
      reads this
    {
      saved.Saved? && !CanUpdate(saved.state, tunnel)
    }

    constructor (script: nat -> Fate, externalOnly: bool, files: map<Path, File>, config: ServiceConfig)
      ensures Valid() && saved.NoState? && backup.None? && !service && !enrolled && !undoLost && alive
      ensures this.script == script && clock == 0 && !smooth && this.externalOnly == externalOnly
      ensures this.files == files && pristine == files && this.config == config
    {
      saved, tunnel, backup := NoState, TunnelFiles(false, false, false), None;
      this.files, this.pristine, this.config := files, files, config;
      service, credential, enrolled, facts := false, false, false, NO_FACTS;
      undoLost, tried, clock, alive := false, [], 0, true;
      this.script, this.smooth, this.externalOnly := script, false, externalOnly;
    }

    method Attempt() returns (o: Outcome)
      modifies this`clock, this`alive
      ensures alive ==> old(alive)
      ensures smooth && old(alive) ==> o == Done && alive
      ensures !old(alive) ==> o == NotDone
      ensures !alive ==> o != Done
      ensures old(alive) && !smooth ==> clock == old(clock) + 1 && (o, alive) == Suffered(script(old(clock)))
    {
      if !alive { return NotDone; }
      if smooth { return Done; }
      o, alive := Suffered(script(clock)).0, Suffered(script(clock)).1;
      clock := clock + 1;
    }

    // What a process sees of a fate, and whether it lives on.
    static function Suffered(fate: Fate): (Outcome, bool) {
      match fate
      case Succeed => (Done, true)
      case FailAfter => (Ambiguous, true)
      case DieAfter => (Ambiguous, false)
      case Fail => (NotDone, true)
      case Die => (NotDone, false)
    }

    // The next n effects succeed, and the process dies right after the one behind them.
    ghost predicate DiesAfter(n: nat)
      reads this
    {
      alive && !smooth && (forall i :: clock <= i < clock + n ==> script(i) == Succeed) && script(clock + n) == DieAfter
    }

    // The undos of cleanup. What a dead process would do next is not tried.
    method Begin(u: Undo)
      requires Valid()
      modifies this`tried
      ensures Valid() && tried == old(tried) + if alive then [u] else []
    {
      tried := tried + if alive then [u] else [];
    }

    method UninstallService() returns (o: Outcome)
      requires Valid()
      modifies this`service, this`tried, this`clock, this`alive
      ensures Valid() && (alive ==> old(alive)) && tried == old(tried) + if old(alive) then [StopService] else []
      ensures service == (old(service) && o == NotDone)
      ensures smooth ==> o == Done
    {
      Begin(StopService);
      o := Attempt();
      if o != NotDone { service := false; }
    }

    method Revoke() returns (o: Outcome)
      requires Valid()
      modifies this`enrolled, this`tried, this`clock, this`alive
      ensures Valid() && (alive ==> old(alive)) && tried == old(tried) + if old(alive) then [RevokeCloud] else []
      ensures enrolled == (old(enrolled) && o == NotDone)
      ensures smooth ==> o == Done
    {
      Begin(RevokeCloud);
      o := Attempt();
      if o != NotDone { enrolled := false; }
    }

    // The next command starts a new process; from then on the environment may stop causing failures.
    method Restart(calm: bool)
      requires Valid()
      modifies this`alive, this`smooth
      ensures Valid() && alive && smooth == calm
    {
      alive, smooth := true, calm;
    }

    // UpdateState: refuses a record whose tunnel artifacts are missing.
    method UpdateState(s: State) returns (ok: bool)
      requires Valid() && Recordable(s)
      requires backup.Some? && backup.value.source.Some? ==> s.link.driver == Runs
      modifies this`saved, this`clock, this`alive
      ensures Valid() && (alive ==> old(alive))
      ensures saved == old(saved) || (CanUpdate(s, tunnel) && saved == Saved(Recovered(s, tunnel)))
      ensures ok ==> CanUpdate(s, tunnel) && saved == Saved(Recovered(s, tunnel))
      ensures smooth ==> ok == CanUpdate(s, tunnel)
      ensures !old(alive) ==> saved == old(saved)
    {
      ok := false;
      if CanUpdate(s, tunnel) {
        var record := Recovered(s, tunnel);
        assert Recordable(record);
        var o := Attempt();
        if o != NotDone { saved := Saved(record); }
        ok := o == Done;
      }
    }

    // The tunnel artifacts of a new enrollment.
    method SaveTunnel(kind: TunnelCredential) returns (ok: bool)
      modifies this`tunnel, this`clock, this`alive
      ensures alive ==> old(alive)
      ensures ok ==> CanSave(kind, tunnel) && alive
      ensures kind != LocalCredential ==> tunnel == old(tunnel).(token := tunnel.token)
      ensures smooth && old(alive) ==> alive && ok == (kind != Missing)
      ensures !old(alive) ==> tunnel == old(tunnel) && !ok
    {
      var o := NotDone;
      match kind {
        case Missing =>
        case LocalCredential =>
          o := Attempt();
          if o != NotDone { tunnel := tunnel.(credentials := true); }
          if o == Done {
            o := Attempt();
            if o != NotDone { tunnel := tunnel.(config := true); }
          }
        case LegacyToken =>
          o := Attempt();
          if o != NotDone { tunnel := tunnel.(token := true); }
      }
      ok := o == Done;
    }

    // SaveState: the tunnel artifacts first, the record last.
    method SaveState(s: State, kind: TunnelCredential, known: Facts) returns (ok: bool)
      requires Valid() && saved.NoState?
      requires Justified(s, known) && !s.restored && !s.revoked && (externalOnly ==> s.link.driver == Runs)
      requires s.link.driver == Runs && backup.Some? ==> backup.value.runtime == s.link.runtime
      modifies this`saved, this`tunnel, this`facts, this`clock, this`alive
      ensures Valid() && (alive ==> old(alive))
      ensures saved.Saved? ==> facts == known && CanSave(kind, tunnel) && saved == Saved(WithTunnel(s, kind))
      ensures ok ==> saved.Saved?
      ensures kind != LocalCredential ==> tunnel == old(tunnel).(token := tunnel.token)
      ensures smooth ==> ok == (kind != Missing)
      ensures !old(alive) ==> saved == old(saved) && tunnel == old(tunnel) && facts == old(facts)
    {
      var record := WithTunnel(s, kind);
      assert Justified(record, known);
      ok := SaveTunnel(kind);
      if !ok { return; }
      var o := Attempt();
      if o != NotDone {
        saved, facts := Saved(record), known;
      }
      ok := o == Done;
    }

    static function WithTunnel(s: State, kind: TunnelCredential): State {
      s.(link := s.link.(tunnel := if kind == LocalCredential then LocalTunnel else TokenTunnel))
    }

    static predicate CanSave(kind: TunnelCredential, present: TunnelFiles) {
      match kind
      case Missing => false
      case LocalCredential => present.config && present.credentials
      case LegacyToken => present.token
    }

    // RemoveState: token, tunnel configuration, tunnel credentials, runtime backup, and the record last.
    method RemoveState() returns (ok: bool)
      requires Valid()
      requires externalOnly ==> backup.None? || files == pristine
      modifies this`saved, this`tunnel, this`backup, this`undoLost, this`clock, this`alive
      ensures Valid() && (alive ==> old(alive))
      ensures ok ==> saved.NoState? 
      ensures saved == old(saved) || saved.NoState?
      ensures backup == old(backup) || backup.None?
      ensures saved.NoState? && old(saved).Saved? ==> backup.None? && tunnel == TunnelFiles(false, false, false)
      ensures ok ==> backup.None? && tunnel == TunnelFiles(false, false, false)
      ensures undoLost <==> old(undoLost) || (backup != old(backup) && files != pristine)
      ensures smooth ==> ok
      ensures !old(alive) ==> saved == old(saved) && tunnel == old(tunnel) && backup == old(backup)
      // a removal cut after more than an unused token leaves a frozen record, and a frozen one stays frozen
      ensures PartlyRemoved(old(tunnel), tunnel)
      ensures saved.Saved? && !Frozen() ==> tunnel == old(tunnel) || tunnel == old(tunnel).(token := false)
      ensures old(Frozen()) && saved.Saved? ==> Frozen()
      // and that happens
      ensures old(saved.Saved? && tunnel.config && !tunnel.token && DiesAfter(0)) ==> Frozen()
    {
      ok := RemoveTunnelFiles();
      if saved.Saved? { CutRemovalFreezesTheRecord(saved.state, old(tunnel), tunnel); }
      if ok { ok := RemoveBackup(); }
      if ok && saved.Saved? {
        var o := Attempt();
        if o != NotDone { saved := NoState; }
        ok := o == Done;
      }
    }

    method RemoveTunnelFiles() returns (ok: bool)
      modifies this`tunnel, this`clock, this`alive
      ensures alive ==> old(alive)
      ensures ok ==> tunnel == TunnelFiles(false, false, false)
      ensures smooth && old(alive) ==> alive && ok
      ensures !old(alive) ==> tunnel == old(tunnel)
      ensures PartlyRemoved(old(tunnel), tunnel)
      ensures old(tunnel.config && !tunnel.token && DiesAfter(0)) ==> !ok && !tunnel.config && !tunnel.token
    {
      var o := Done;
      if tunnel.token {
        o := Attempt();
        if o != NotDone { tunnel := tunnel.(token := false); }
      }
      if o == Done && tunnel.config {
        o := Attempt();
        if o != NotDone { tunnel := tunnel.(config := false); }
      }
      if o == Done && tunnel.credentials {
        o := Attempt();
        if o != NotDone { tunnel := tunnel.(credentials := false); }
      }
      ok := o == Done;
    }

    // Deleting a backup while a file still differs from its original is where an undo is lost.
    method RemoveBackup() returns (ok: bool)
      requires Valid()
      requires externalOnly ==> backup.None? || files == pristine
      modifies this`backup, this`undoLost, this`clock, this`alive
      ensures Valid() && (alive ==> old(alive))
      ensures backup == old(backup) || backup.None?
      ensures ok ==> backup.None?
      ensures undoLost <==> old(undoLost) || (backup != old(backup) && files != pristine)
      ensures smooth ==> ok
      ensures !old(alive) ==> backup == old(backup)
    {
      if backup.None? { return true; }
      var o := Attempt();
      if o != NotDone {
        UndoableWithoutBackup(files, pristine);
        backup := None;
        undoLost := undoLost || files != pristine;
      }
      ok := o == Done;
    }
  }
}
