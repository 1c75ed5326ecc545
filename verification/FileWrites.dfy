// The multi-file write of the OpenClaw migration and its undo: every overwritten file is copied to a
// free backup name first, and the undo runs backwards over the log of what was applied.
module FileWrites {
  import opened Wrappers
  import opened GoStrings

  type Path = string
  datatype File = File(data: string, mode: nat)
  type Files = map<Path, File>

  datatype Plan = Plan(path: Path, data: string)

  // One logged write: what was at the path before, and the backup that was made of it.
  datatype Applied = Applied(path: Path, before: Option<File>, backup: Option<Path>)

  // What the operating system does to the n-th operation: it succeeds, fails without effect, or a
  // failing write leaves some other content behind.
  datatype Fault = Fine | Fails | Torn(left: string)

  const DEFAULT_MODE := 0x1A4 // 0o644

  // ----- os.WriteFile and the undo, on the state of the file system -----

  // os.WriteFile keeps the mode of a file that exists; a new one gets the given mode under the umask.
  function Written(fs: Files, p: Path, data: string, mode: nat, umask: nat -> nat): Files {
    fs[p := File(data, if p in fs then fs[p].mode else umask(mode))]
  }

  function UndoOne(fs: Files, a: Applied, umask: nat -> nat): Files {
    var back := match a.before
      case Some(f) => Written(fs, a.path, f.data, f.mode, umask)
      case None => fs - {a.path};
    if a.backup.Some? then back - {a.backup.value} else back
  }

  // The last write is undone first.
  function UndoAll(fs: Files, log: seq<Applied>, umask: nat -> nat): Files
    decreases |log|
  {
    if log == [] then fs
    else UndoAll(UndoOne(fs, log[|log| - 1], umask), log[..|log| - 1], umask)
  }

  // Every path the log speaks of.
  ghost predicate Mentions(log: seq<Applied>, p: Path) {
    exists a :: a in log && (a.path == p || a.backup == Some(p))
  }

  lemma {:induction false} UndoLeavesStrangersAlone(fs: Files, log: seq<Applied>, p: Path, f: File, umask: nat -> nat)
    requires !Mentions(log, p)
    ensures UndoAll(fs[p := f], log, umask) == UndoAll(fs, log, umask)[p := f]
    decreases |log|
  {
    if log != [] {
      var a, rest := log[|log| - 1], log[..|log| - 1];
      assert a in log;
      assert UndoOne(fs[p := f], a, umask) == UndoOne(fs, a, umask)[p := f];
      assert forall b :: b in rest ==> b in log;
      UndoLeavesStrangersAlone(UndoOne(fs, a, umask), rest, p, f, umask);
    }
  }

  lemma UndoOfOneMore(fs: Files, log: seq<Applied>, a: Applied, umask: nat -> nat)
    ensures UndoAll(fs, log + [a], umask) == UndoAll(UndoOne(fs, a, umask), log, umask)
  {
    assert (log + [a])[..|log|] == log;
  }

  // ----- backup names -----

  function Candidate(p: Path, i: nat): Path {
    if i <= 1 then p + ".bak" else p + ".bak." + Dec(i)
  }

  lemma CandidateIsAnotherFile(p: Path, i: nat)
    ensures Candidate(p, i) != p
  {
    assert |Candidate(p, i)| > |p|;
  }

  // What holds of the log while plans are applied: undoing it gives the start back, its paths exist,
  // and no file has gone.
  ghost predicate Logged(start: Files, fs: Files, log: seq<Applied>, umask: nat -> nat) {
    && UndoAll(fs, log, umask) == start
    && (forall p :: Mentions(log, p) ==> p in fs)
    && start.Keys <= fs.Keys
  }

  // A write to a logged path cannot hurt: undoing it puts the same content, mode or absence back.
  lemma UndoneWrite(fs: Files, a: Applied, data: string, mode: nat, umask: nat -> nat)
    requires a.before == (if a.path in fs then Some(fs[a.path]) else None)
    requires a.backup.Some? ==> a.backup.value !in fs && a.backup.value != a.path && a.path in fs
    ensures var copied := if a.backup.Some? then Written(fs, a.backup.value, fs[a.path].data, fs[a.path].mode, umask) else fs;
            && UndoOne(copied, a, umask) == fs
            && UndoOne(Written(copied, a.path, data, mode, umask), a, umask) == fs
  {
  }

  class Disk {
    var files: Files
    var clock: nat
    const faults: nat -> Fault
    const umask: nat -> nat

    constructor (files: Files, faults: nat -> Fault, umask: nat -> nat)
      ensures this.files == files && this.faults == faults && this.umask == umask
    {
      this.files, this.clock, this.faults, this.umask := files, 0, faults, umask;
    }

    method Next() returns (f: Fault)
      modifies this`clock
    {
      f := faults(clock);
      clock := clock + 1;
    }

    // os.WriteFile. A failing write may leave anything in the file, or create it.
    method WriteFile(p: Path, data: string, mode: nat) returns (ok: bool)
      modifies this
      ensures files == old(files) || exists left :: files == Written(old(files), p, left, mode, umask)
      ensures ok ==> files == Written(old(files), p, data, mode, umask)
    {
      var f := Next();
      match f {
        case Fine => files := Written(files, p, data, mode, umask);
        case Fails =>
        case Torn(left) => files := Written(files, p, left, mode, umask);
      }
      ok := f.Fine?;
    }

    method Remove(p: Path) returns (ok: bool)
      modifies this
      ensures files == old(files) || files == old(files) - {p}
      ensures ok ==> files == old(files) - {p}
    {
      var f := Next();
      ok := f.Fine?;
      if ok { files := files - {p}; }
    }

    // nextBackupPath: the first free name of .bak, .bak.2 and so on up to .bak.999.
    method NextBackupPath(p: Path) returns (free: Option<Path>)
      modifies this`clock
      ensures free.Some? ==> exists i :: 1 <= i < 1000 && free.value == Candidate(p, i) && Candidate(p, i) !in files
                                         && forall j :: 1 <= j < i ==> Candidate(p, j) in files
    {
      for i := 1 to 1000
        invariant forall j :: 1 <= j < i ==> Candidate(p, j) in files
      {
        var f := Next();
        if f != Fine { return None; }
        if Candidate(p, i) !in files { return Some(Candidate(p, i)); }
      }
      return None;
    }

    // The restore closure. `clean` says that none of its own operations failed; it goes on either way.
    method Restore(log: seq<Applied>) returns (clean: bool)
      modifies this
      ensures clean ==> files == UndoAll(old(files), log, umask)
    {
      clean := true;
      var i := |log|;
      assert log[..i] == log;
      while i > 0
        invariant 0 <= i <= |log|
        invariant clean ==> UndoAll(files, log[..i], umask) == UndoAll(old(files), log, umask)
      {
        i := i - 1;
        assert log[..i + 1][..i] == log[..i];
        var ok: bool;
        if log[i].before.Some? {
          ok := WriteFile(log[i].path, log[i].before.value.data, log[i].before.value.mode);
        } else {
          ok := Remove(log[i].path);
        }
        clean := clean && ok;
        if log[i].backup.Some? {
          ok := Remove(log[i].backup.value);
          clean := clean && ok;
        }
      }
    }

    // Copy an existing file to a free name. A failed copy may leave something at that name.
    method BackUp(p: Path) returns (backup: Option<Path>, ghost torn: Option<Path>)
      requires p in files
      modifies this
      ensures backup.Some? ==> backup.value !in old(files) && backup.value != p
                               && files == Written(old(files), backup.value, old(files)[p].data, old(files)[p].mode, umask)
      ensures backup.None? ==> LeftAt(old(files), files, torn)
    {
      backup, torn := None, None;
      var stat := Next();
      if stat != Fine { return; }
      var free := NextBackupPath(p);
      if free.None? { return; }
      var b, before := free.value, files;
      assert b != p by {
        var i :| 1 <= i < 1000 && b == Candidate(p, i);
        CandidateIsAnotherFile(p, i);
      }
      var ok := WriteFile(b, files[p].data, files[p].mode);
      if ok {
        backup := free;
      } else if files != before {
        torn := free;
        assert files == before[b := files[b]];
      }
    }

    // applyOpenClawFileWrites. On success the log undoes everything; on failure the undo has been run.
    method Apply(plans: seq<Plan>)
      returns (copied: nat, backedUp: nat, log: seq<Applied>, ok: bool, ghost clean: bool, ghost torn: Option<Path>)
      modifies this
      ensures ok ==> UndoAll(files, log, umask) == old(files) && copied == |log| && backedUp == Backups(log)
      ensures ok ==> WritesDone(plans, |plans|, old(files), files)
      ensures !ok && clean ==> LeftAt(old(files), files, torn)
    {
      copied, backedUp, log, ok, clean, torn := 0, 0, [], true, true, None;
      var k := 0;
      while k < |plans|
        invariant 0 <= k <= |plans|
        invariant Logged(old(files), files, log, umask) && copied == |log| && backedUp == Backups(log)
        invariant WritesDone(plans, k, old(files), files)
      {
        var before, log0 := files, log;
        log, ok, torn := ApplyOne(plans[k], old(files), log);
        if !ok {
          clean := Restore(log);
          return;
        }
        if |log| > |log0| {
          copied := copied + 1;
          if log[|log| - 1].backup.Some? { backedUp := backedUp + 1; }
        }
        WritesDoneStep(plans, k, old(files), before, files);
        k := k + 1;
      }
    }

    // One plan: skip it, back up and overwrite, or create.
    method ApplyOne(plan: Plan, ghost start: Files, log: seq<Applied>)
      returns (log': seq<Applied>, ok: bool, ghost torn: Option<Path>)
      requires Logged(start, files, log, umask)
      modifies this
      ensures ok ==> Logged(start, files, log', umask) && OneDone(plan, old(files), files)
      ensures ok ==> log' == log || (|log'| == |log| + 1 && log'[..|log|] == log)
      ensures !ok ==> LeftAt(start, UndoAll(files, log', umask), torn)
    {
      log', ok, torn := log, false, None;
      if Trim(plan.path) == [] { return; }
      var mkdir := Next();
      if mkdir != Fine { return; }
      var read := Next();
      if read != Fine { return; }
      var mode := DEFAULT_MODE;
      if plan.path in files {
        if files[plan.path].data == plan.data { return log, true, None; }
        var before, backup := files, None;
        backup, torn := BackUp(plan.path);
        if backup.None? {
          TornBackup(start, before, files, log, torn, umask);
          return;
        }
        var a := Applied(plan.path, Some(before[plan.path]), backup);
        WillUndo(start, before, log, a, umask);
        log' := log + [a];
        mode := before[plan.path].mode;
      } else {
        var a := Applied(plan.path, None, None);
        WillRemove(start, files, log, a, umask);
        log' := log + [a];
      }
      torn := None;
      ok := WriteFile(plan.path, plan.data, mode);
    }
  }

  // Either nothing is left over, or one file at a name that was free.
  ghost predicate LeftAt(start: Files, fs: Files, torn: Option<Path>) {
    match torn
    case None => fs == start
    case Some(p) => p !in start && p in fs && fs == start[p := fs[p]]
  }

  // Among the first k plans, the i-th is the last for its path.
  predicate LastFor(plans: seq<Plan>, k: nat, i: nat)
    requires i < k <= |plans|
  {
    forall j :: i < j < k ==> plans[j].path != plans[i].path
  }

  function Backups(log: seq<Applied>): nat {
    if log == [] then 0
    else Backups(log[..|log| - 1]) + if log[|log| - 1].backup.Some? then 1 else 0
  }

  // What one successful plan does to the files.
  ghost predicate OneDone(plan: Plan, before: Files, fs: Files) {
    && plan.path in fs && fs[plan.path].data == plan.data
    && forall p :: p in before ==> p in fs && fs[p].mode == before[p].mode && (p != plan.path ==> fs[p] == before[p])
  }

  // Among the first k plans every last one for its path has its data there; modes and other files are
  // as they were.
  ghost predicate WritesDone(plans: seq<Plan>, k: nat, start: Files, fs: Files)
    requires k <= |plans|
  {
    && (forall i :: 0 <= i < k && LastFor(plans, k, i) ==>
          plans[i].path in fs && fs[plans[i].path].data == plans[i].data)
    && (forall p :: p in start ==> p in fs && fs[p].mode == start[p].mode)
    && (forall p :: p in start && (forall i :: 0 <= i < k ==> plans[i].path != p) ==> fs[p] == start[p])
  }

  lemma WritesDoneStep(plans: seq<Plan>, k: nat, start: Files, before: Files, fs: Files)
    requires k < |plans| && WritesDone(plans, k, start, before) && OneDone(plans[k], before, fs)
    ensures WritesDone(plans, k + 1, start, fs)
  {
    forall i | 0 <= i < k + 1 && LastFor(plans, k + 1, i)
      ensures plans[i].path in fs && fs[plans[i].path].data == plans[i].data
    {
      if i < k {
        assert plans[k].path != plans[i].path;
        assert LastFor(plans, k, i);
      }
    }
  }

  // A half-written backup survives the undo, and nothing else does.
  lemma TornBackup(start: Files, before: Files, fs: Files, log: seq<Applied>, torn: Option<Path>, umask: nat -> nat)
    requires Logged(start, before, log, umask) && LeftAt(before, fs, torn)
    ensures LeftAt(start, UndoAll(fs, log, umask), torn)
  {
    if torn.Some? {
      UndoLeavesStrangersAlone(before, log, torn.value, fs[torn.value], umask);
    }
  }

  lemma WillRemove(start: Files, fs: Files, log: seq<Applied>, a: Applied, umask: nat -> nat)
    requires Logged(start, fs, log, umask) && a.path !in fs && a.before.None? && a.backup.None?
    ensures UndoAll(fs, log + [a], umask) == start
    ensures forall data, mode :: Logged(start, Written(fs, a.path, data, mode, umask), log + [a], umask)
  {
    UndoneWrite(fs, a, "", 0, umask);
    UndoOfOneMore(fs, log, a, umask);
    forall data, mode ensures Logged(start, Written(fs, a.path, data, mode, umask), log + [a], umask) {
      UndoneWrite(fs, a, data, mode, umask);
      UndoOfOneMore(Written(fs, a.path, data, mode, umask), log, a, umask);
      forall p | Mentions(log + [a], p) ensures p in Written(fs, a.path, data, mode, umask) {
        if p != a.path {
          assert Mentions(log, p);
        }
      }
    }
  }

  // Logging a write keeps the log right, before the write takes place and whatever it leaves behind.
  lemma WillUndo(start: Files, fs: Files, log: seq<Applied>, a: Applied, umask: nat -> nat)
    requires Logged(start, fs, log, umask)
    requires a.path in fs && a.before == Some(fs[a.path])
    requires a.backup.Some? && a.backup.value !in fs && a.backup.value != a.path
    ensures var copied := Written(fs, a.backup.value, fs[a.path].data, fs[a.path].mode, umask);
            Logged(start, copied, log + [a], umask)
            && forall data, mode :: Logged(start, Written(copied, a.path, data, mode, umask), log + [a], umask)
  {
    var copied := Written(fs, a.backup.value, fs[a.path].data, fs[a.path].mode, umask);
    UndoneWrite(fs, a, "", 0, umask);
    UndoOfOneMore(copied, log, a, umask);
    forall p | Mentions(log + [a], p) ensures p in copied {
      if p != a.path && p != a.backup.value {
        assert Mentions(log, p);
      }
    }
    forall data, mode ensures Logged(start, Written(copied, a.path, data, mode, umask), log + [a], umask) {
      UndoneWrite(fs, a, data, mode, umask);
      UndoOfOneMore(Written(copied, a.path, data, mode, umask), log, a, umask);
    }
  }
}
