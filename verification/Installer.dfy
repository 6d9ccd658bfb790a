/** InstallOfficialCursorAgent as the sequence of assignments it is. Every outcome the
    operating system may choose is chosen freely; the ghost fields follow the step machine
    along, so that whatever holds of its runs holds of the code. */
module Installer {
  import opened Wrappers
  import opened Paths
  import opened Layout
  import opened InstallMachine
  import opened InstallSafety
  import opened InstallSteps
  import opened InstallRuns

  class ManagedRoot {
    var disk: Disk

    /** The machine's state, the state in which the call began to work, and what has
        happened since. */
    ghost var state: State
    ghost var base: State
    ghost var calls: seq<Event>

    /** What downloading gives in this call. */
    ghost var package: Option<Package>

    ghost predicate Tracks()
      reads this
    {
      state == Run(base, calls) && OneCall(calls, package) && state.disk == disk
    }

    /** In the middle of a job, about to do a given step. */
    ghost predicate Doing(pc: Pc, job: Job)
      reads this
    {
      Tracks() && state.phase == Running(pc, job)
    }

    ghost predicate Failed()
      reads this
    {
      Tracks() && state.phase.Finished? && !state.phase.success
    }

    ghost method Note(e: Event)
      requires state == Run(base, calls) && OneCall(calls + [e], package)
      modifies `state, `calls
      ensures state == Run(base, calls) && OneCall(calls, package) && state == Step(old(state), e)
    {
      state := Step(state, e);
      assert (calls + [e])[..|calls|] == calls;
      calls := calls + [e];
    }

    // -------------------------------------------------------------- single system calls

    /** os.RemoveAll on a directory of the version being installed; errors are ignored. */
    method RemoveAll(n: Name, ghost pc: Pc, ghost job: Job)
      requires Doing(pc, job) && n == RemovedAt(pc, job.version) &&
                pc in {ClearStaged, ClearBackup, DropStaged, DropActivated}
      modifies `disk, `state, `calls
      ensures base == old(base)
      ensures if pc.DropStaged? then Failed()
              else Doing(if pc.ClearStaged? then Stage else if pc.ClearBackup? then Backup else RollbackRemove, job)
    {
      var left: Option<set<Path>> := *;
      disk := disk.(dirs := RemoveDir(disk.dirs, n, left));
      Note(Remove(left));
    }

    method StageTree(job: Job) returns (failed: bool)
      requires Doing(Stage, job)
      modifies `disk, `state, `calls
      ensures base == old(base) && if failed then Failed() else Doing(ClearBackup, job)
    {
      var ok: bool := *;
      failed := !(ok && CanRenameTo(disk.dirs, Staged(job.version)));
      if !failed { disk := disk.(dirs := disk.dirs[Staged(job.version) := job.pkg.tree]); }
      Note(Op(ok));
    }

    method BackUp(job: Job) returns (failed: bool, existed: bool)
      requires Doing(Backup, job)
      modifies `disk, `state, `calls
      ensures base == old(base) && if failed then Doing(DropStaged, job) else Doing(Activate, job.(existed := existed))
    {
      var v := job.version;
      var ok: bool := *;
      existed := v in disk.dirs;
      failed := existed && !(ok && CanRenameTo(disk.dirs, BackupOf(v)));
      if existed && !failed { disk := disk.(dirs := RenameDir(disk.dirs, v, BackupOf(v))); }
      Note(Op(ok));
    }

    method MoveIn(job: Job) returns (failed: bool)
      requires Doing(Activate, job)
      modifies `disk, `state, `calls
      ensures base == old(base) && Doing(if failed then DropActivated else Validate, job)
    {
      var v := job.version;
      var ok: bool := *;
      failed := !(ok && CanRenameTo(disk.dirs, v) && Staged(v) in disk.dirs);
      if !failed { disk := disk.(dirs := RenameDir(disk.dirs, Staged(v), v)); }
      Note(Op(ok));
    }

    method ValidateBinary(job: Job) returns (failed: bool)
      requires Doing(Validate, job)
      modifies `state, `calls
      ensures base == old(base) && disk == old(disk) && Doing(if failed then RollbackRemove else Prepare, job)
    {
      failed := !(job.version in disk.dirs && Validates(disk.dirs[job.version], job.pkg.rel));
      Note(Op(true));
    }

    /** replaceCurrentLink */
    method ReplaceCurrentLink(v: Name, ghost pc: Pc, ghost job: Job) returns (failed: bool)
      requires Doing(pc, job)
      requires (pc.Prepare? && job.prior.Installed? && v == job.prior.version) || (pc.Swap? && v == job.version)
      modifies `disk, `state, `calls
      ensures base == old(base) && Doing(if failed then RollbackRemove else if pc.Prepare? then MkBin else Commit, job)
    {
      var ok: bool := *;
      failed := !ok;
      if ok && !PointsTo(disk, v) {
        disk := disk.(current := Some(v));
        failed := v !in disk.dirs;
      }
      Note(Op(ok));
    }

    method SkipPrepare(ghost job: Job)
      requires Doing(Prepare, job) && job.prior.NotInstalled?
      modifies `state, `calls
      ensures base == old(base) && disk == old(disk) && Doing(MkBin, job)
    {
      Note(Op(true));
    }

    method MakeBinDir(ghost job: Job) returns (failed: bool)
      requires Doing(MkBin, job)
      modifies `state, `calls
      ensures base == old(base) && disk == old(disk) && Doing(if failed then RollbackRemove else LinkAgent, job)
    {
      var ok: bool := *;
      Note(Op(ok));
      return !ok;
    }

    method ReplaceAgentLink(job: Job) returns (failed: bool)
      requires Doing(LinkAgent, job)
      modifies `disk, `state, `calls
      ensures base == old(base) && Doing(if failed then RollbackRemove else LinkCursor, job)
    {
      var ok: bool := *;
      if ok { disk := disk.(agent := ViaCurrent(job.pkg.rel)); }
      Note(Op(ok));
      return !ok;
    }

    method ReplaceCursorLink(job: Job) returns (failed: bool)
      requires Doing(LinkCursor, job)
      modifies `disk, `state, `calls
      ensures base == old(base) && Doing(if failed then RollbackRemove else Swap, job)
    {
      var ok: bool := *;
      if ok { disk := disk.(cursorAgent := ViaCurrent(job.pkg.rel)); }
      Note(Op(ok));
      return !ok;
    }

    method DropBackup(job: Job)
      requires Doing(Commit, job)
      modifies `disk, `state, `calls
      ensures base == old(base) && Tracks() && state.phase.Finished? && state.phase.success
    {
      var left: Option<set<Path>> := *;
      disk := disk.(dirs := RemoveDir(disk.dirs, BackupOf(job.version), left));
      Note(Remove(left));
    }

    /** The end of the deferred rollback's work on directories. */
    ghost predicate RolledBack(job: Job)
      reads this
    {
      if job.prior.NotInstalled? then Tracks() && state.phase.Running? && state.phase.pc.CleanAgent? else Failed()
    }

    method RemoveVersion(job: Job)
      requires Doing(RollbackRemove, job)
      modifies `disk, `state, `calls
      ensures base == old(base)
      ensures if job.existed
              then Tracks() && state.phase.Running? &&
                  state.phase == Running(RollbackRestore, job.(tidy := state.phase.job.tidy))
              else RolledBack(job)
    {
      var left: Option<set<Path>> := *;
      disk := disk.(dirs := RemoveDir(disk.dirs, job.version, left));
      Note(Remove(left));
    }

    method RestoreBackup(v: Name, ghost job: Job)
      requires Doing(RollbackRestore, job) && v == job.version
      modifies `disk, `state, `calls
      ensures base == old(base) && RolledBack(job)
    {
      var ok: bool := *;
      if ok && CanRenameTo(disk.dirs, v) && BackupOf(v) in disk.dirs {
        disk := disk.(dirs := RenameDir(disk.dirs, BackupOf(v), v));
      }
      Note(Op(ok));
    }

    method UnlinkAgent(ghost job: Job)
      requires Doing(CleanAgent, job)
      modifies `disk, `state, `calls
      ensures base == old(base) && Tracks() && state.phase.Running? && state.phase.pc.CleanCursor?
    {
      var ok: bool := *;
      if ok && HasCurrentInside(disk, disk.agent) { disk := disk.(agent := Absent); }
      Note(Op(ok));
    }

    method UnlinkCursor(ghost job: Job)
      requires Doing(CleanCursor, job)
      modifies `disk, `state, `calls
      ensures base == old(base) && Tracks() && state.phase.Running? && state.phase.pc.CleanCurrent?
    {
      var ok: bool := *;
      if ok && HasCurrentInside(disk, disk.cursorAgent) { disk := disk.(cursorAgent := Absent); }
      Note(Op(ok));
    }

    method UnlinkCurrent(ghost job: Job)
      requires Doing(CleanCurrent, job)
      modifies `disk, `state, `calls
      ensures base == old(base) && Failed()
    {
      var ok: bool := *;
      if ok { disk := disk.(current := None); }
      Note(Op(ok));
    }

    // -------------------------------------------------------------- the installer

    /** ensureStableBinLinks */
    method EnsureStableBinLinks(job: Job) returns (failed: bool)
      requires Doing(MkBin, job)
      modifies `disk, `state, `calls
      ensures base == old(base) && Doing(if failed then RollbackRemove else Swap, job)
    {
      failed := MakeBinDir(job);
      if !failed { failed := ReplaceAgentLink(job); }
      if !failed { failed := ReplaceCursorLink(job); }
    }

    /** The deferred function when nothing was activated, cleanupInitialInstallLinks
        included. */
    method Rollback(job: Job)
      requires Doing(RollbackRemove, job)
      modifies `disk, `state, `calls
      ensures base == old(base) && Failed()
    {
      RemoveVersion(job);
      if job.existed { RestoreBackup(job.version, state.phase.job); }
      if job.prior.NotInstalled? {
        UnlinkAgent(state.phase.job);
        UnlinkCursor(state.phase.job);
        UnlinkCurrent(state.phase.job);
      }
    }

    /** Up to the staged tree and the saved directory. */
    method Stow(job: Job) returns (failed: bool, existed: bool)
      requires Doing(ClearStaged, job)
      modifies `disk, `state, `calls
      ensures base == old(base) && if failed then Failed() else Doing(Activate, job.(existed := existed))
    {
      existed := false;
      RemoveAll(Staged(job.version), ClearStaged, job);
      failed := StageTree(job);
      if failed { return; }
      RemoveAll(BackupOf(job.version), ClearBackup, job);
      failed, existed := BackUp(job);
      if failed { RemoveAll(Staged(job.version), DropStaged, job); }
    }

    /** From the directory in place to the swapped link. */
    method SwitchOver(job: Job) returns (failed: bool)
      requires Doing(Activate, job)
      modifies `disk, `state, `calls
      ensures base == old(base) && Doing(if failed then RollbackRemove else Commit, job)
    {
      failed := MoveIn(job);
      if failed {
        RemoveAll(Staged(job.version), DropActivated, job);
        return;
      }
      failed := ValidateBinary(job);
      if failed { return; }
      if job.prior.Installed? {
        failed := ReplaceCurrentLink(job.prior.version, Prepare, job);
        if failed { return; }
      } else {
        SkipPrepare(job);
      }
      failed := EnsureStableBinLinks(job);
      if failed { return; }
      failed := ReplaceCurrentLink(job.version, Swap, job);
    }

    method Perform(job: Job) returns (success: bool)
      requires Doing(ClearStaged, job)
      modifies `disk, `state, `calls
      ensures base == old(base) && Tracks() && state.phase.Finished? && state.phase.success == success
    {
      var failed, existed := Stow(job);
      if failed { return false; }
      var held := job.(existed := existed);
      failed := SwitchOver(held);
      if failed {
        Rollback(held);
        return false;
      }
      DropBackup(held);
      return true;
    }

    /** The call after the download: verification, the versions directory, the earlier
        installation and the layout check. */
    method WithPackage(v: Name, pkg: Package, entry: Disk) returns (success: bool)
      requires Doing(MkVersions, Job(v, pkg, NotInstalled, false, entry, true))
      modifies `disk, `state, `calls
      ensures base == old(base) && Tracks() && state.phase.Finished? && state.phase.success == success
    {
      ghost var first := Job(v, pkg, NotInstalled, false, entry, true);
      var failed := MakeVersionsDir(first);
      if failed { return false; }
      var prior;
      failed, prior := ReadPriorInstall(pkg.rel, first);
      if failed { return false; }
      success := Perform(Job(v, pkg, prior, false, entry, true));
    }

    method MakeVersionsDir(ghost job: Job) returns (failed: bool)
      requires Doing(MkVersions, job)
      modifies `state, `calls
      ensures base == old(base) && disk == old(disk) && if failed then Failed() else Doing(ReadPrior, job)
    {
      var ok: bool := *;
      Note(Op(ok));
      return !ok;
    }

    method ReadPriorInstall(rel: Path, ghost job: Job) returns (failed: bool, prior: Install)
      requires Doing(ReadPrior, job) && rel == job.pkg.rel
      modifies `state, `calls
      ensures base == old(base) && disk == old(disk) &&
              if failed then Failed() else Doing(ClearStaged, job.(prior := prior))
    {
      var r := InspectManagedInstall(disk);
      Note(Op(true));
      if r.Err? { return true, NotInstalled; }
      return r.value.Installed? && r.value.rel != rel, r.value;
    }

    method Download(v: Name, pkg: Option<Package>, entry: Disk) returns (good: bool)
      requires Tracks() && state.phase == Fetching(v, entry) && calls == [] && pkg == package
      modifies `state, `calls
      ensures base == old(base) && disk == old(disk)
      ensures if good then pkg.Some? && Doing(MkVersions, Job(v, pkg.value, NotInstalled, false, entry, true))
              else Tracks() && state.phase.Finished? && !state.phase.success
    {
      good := pkg.Some? && Verified(pkg.value.tree, pkg.value.rel, v) && Validates(pkg.value.tree, pkg.value.rel);
      Note(Fetch(pkg));
    }

    /** InstallOfficialCursorAgent, once the installer page named a version. The package is
        what downloading and extracting gave, if it gave anything. The call is a run of the
        machine, and keeps what such a call keeps. */
    method InstallOfficialCursorAgent(v: Name, pkg: Option<Package>, ghost world: World) returns (success: bool)
      requires WorldOk(world) && EventOk(world, Begin(v)) && EventOk(world, Fetch(pkg))
      requires Inv(world, state) && state.disk == disk && (state.phase.Idle? || state.phase.Finished?)
      modifies this
      ensures Inv(world, state) && state.disk == disk && state.phase.Finished? && state.phase.success == success
      ensures state == Run(Step(old(state), Begin(v)), calls) && OneCall(calls, pkg)
      ensures Kept(old(disk), disk, v, state.phase)
    {
      ghost var found := state;
      var inspected := InspectManagedInstall(disk);
      var active := inspected.Ok? && inspected.value.Installed? && inspected.value.version == v;
      Start(v, active, pkg);
      success := active;
      if !active {
        var good := Download(v, pkg, disk);
        if good { success := WithPackage(v, pkg.value, disk); }
      }
      OneCallIsOk(world, calls, pkg);
      CallKeeps(world, found, v, calls);
    }

    ghost method Start(v: Name, active: bool, pkg: Option<Package>)
      requires (state.phase.Idle? || state.phase.Finished?) && state.disk == disk
      requires active <==> Inspect(disk).Ok? && Inspect(disk).value.Installed? && Inspect(disk).value.version == v
      modifies `state, `base, `calls, `package
      ensures base == Step(old(state), Begin(v)) && calls == [] && package == pkg && Tracks()
      ensures state.phase == if active then Finished(v, true, None, disk, true) else Fetching(v, disk)
    {
      base := Step(state, Begin(v));
      state, calls, package := base, [], pkg;
    }
  }

  function RemovedAt(pc: Pc, v: Name): Name { if pc.ClearBackup? then BackupOf(v) else Staged(v) }

  /** What one call may consist of: its download and outcomes of the operating system. */
  ghost predicate OneCall(es: seq<Event>, pkg: Option<Package>) {
    forall i :: 0 <= i < |es| ==> es[i].Op? || es[i].Remove? || es[i] == Fetch(pkg)
  }

  lemma OneCallIsOk(world: World, es: seq<Event>, pkg: Option<Package>)
    requires OneCall(es, pkg) && EventOk(world, Fetch(pkg))
    ensures EventsOk(world, es) && CallEvents(es)
  {}
}
