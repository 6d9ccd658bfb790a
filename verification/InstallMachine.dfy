/** The transactional installer as a step machine. Every system call that may fail is a
    step of its own, whose outcome the event decides; a crash may come between any two
    steps and forgets everything but the disk. */
module InstallMachine {
  import opened Wrappers
  import opened Paths
  import opened Resolve
  import opened Layout

  /** What the extraction hands over: the extracted tree and the binary's path in it. */
  datatype Package = Package(tree: Tree, rel: Path)

  /** One installation in progress. The last two fields are history, never consulted: the
      disk at the start, and whether every step of the deferred function so far did what it
      was asked. */
  datatype Job = Job(version: Name, pkg: Package, prior: Install, existed: bool, entry: Disk, tidy: bool)

  datatype Pc =
    | MkVersions | ReadPrior | ClearStaged | Stage | ClearBackup | Backup | DropStaged
    | Activate | DropActivated | Validate | Prepare | MkBin | LinkAgent | LinkCursor | Swap | Commit
    | RollbackRemove | RollbackRestore | CleanAgent | CleanCursor | CleanCurrent

  datatype Phase =
    | Idle
    | Fetching(version: Name, entry: Disk)
    | Running(pc: Pc, job: Job)
    | Finished(version: Name, success: bool, fetched: Option<Package>, entry: Disk, tidy: bool)

  /** `stands` is history as well: the installation the root stands for. Nothing reads it
      and a single step, the last swap of `current`, writes it. */
  datatype State = State(disk: Disk, phase: Phase, stands: Install)

  datatype Event =
    | Begin(version: Name)                  // a call, once the installer page named a version
    | Fetch(pkg: Option<Package>)           // download, extraction, or their failure
    | Op(ok: bool)                          // a mkdir, symlink, rename or unlink
    | Remove(keep: Option<set<Path>>)       // RemoveAll; Some(keep) when it stopped half-way
    | Crash

  // ---------------------------------------------------------------- single operations

  function Staged(v: Name): Name { v + ".new" }
  function BackupOf(v: Name): Name { v + ".old" }

  function RemoveDir(dirs: map<Name, Tree>, n: Name, keep: Option<set<Path>>): map<Name, Tree> {
    if n !in dirs then dirs
    else
      match keep
      case None => dirs - {n}
      case Some(kept) => dirs[n := map p | p in dirs[n] && p in kept :: dirs[n][p]]
  }

  /** No rename puts a directory in the place of one that holds anything. os.Rename refuses
      an empty one as well; that is among the failures the outcome of the call stands for. */
  predicate CanRenameTo(dirs: map<Name, Tree>, n: Name) { n !in dirs || dirs[n] == map[] }

  function RenameDir(dirs: map<Name, Tree>, from: Name, to: Name): map<Name, Tree>
    requires from in dirs
  {
    (dirs - {from})[to := dirs[from]]
  }

  /** The downloaded binary answers --version with the version that was asked for. */
  predicate Verified(t: Tree, rel: Path, v: Name) {
    match Walk(TreeView(t), [], rel, KERNEL_LINKS)
    case Found(q) => q in t && t[q].File? && Contains(t[q].banner, v)
    case _ => false
  }

  /** validateExtractedBinaryPath: the binary resolves to something inside the directory. */
  predicate Validates(t: Tree, rel: Path) {
    match Walk(TreeView(t), [], rel, EVAL_LINKS)
    case Found(q) => q != []
    case _ => false
  }

  /** Where the package's binary really is, behind the links of its tree. */
  function RealBin(p: Package): Path {
    match Walk(TreeView(p.tree), [], p.rel, KERNEL_LINKS)
    case Found(q) => q
    case _ => []
  }

  /** pointsToManagedVersion */
  predicate PointsTo(d: Disk, v: Name) { d.current == Some(v) && v in d.dirs }

  /** cleanupInitialInstallLinks removes a link whose text has "/current/" in it. */
  predicate HasCurrentInside(d: Disk, b: BinLink) {
    !b.Absent? && exists i :: 0 < i < |LinkText(d, b)| - 1 && LinkText(d, b)[i] == "current"
  }

  // ---------------------------------------------------------------- the steps

  function Fail(s: State, job: Job): State {
    s.(phase := Finished(job.version, false, Some(job.pkg), job.entry, job.tidy))
  }

  function At(s: State, pc: Pc, job: Job): State { s.(phase := Running(pc, job)) }

  function Dirs(s: State, dirs: map<Name, Tree>): State { s.(disk := s.disk.(dirs := dirs)) }

  /** replaceCurrentLink, with where to go when it returns nil. */
  function ReplaceCurrent(s: State, job: Job, v: Name, ok: bool, next: Pc): (r: State)
    ensures r.phase.Running?
  {
    if !ok then At(s, RollbackRemove, job)
    else if PointsTo(s.disk, v) then At(s, next, job)
    else
      var s1 := s.(disk := s.disk.(current := Some(v)));
      if v in s.disk.dirs then At(s1, next, job) else At(s1, RollbackRemove, job)
  }

  function AfterRollback(s: State, job: Job): State {
    if job.prior.NotInstalled? then At(s, CleanAgent, job) else Fail(s, job)
  }

  // What each operation does, whether it succeeds or fails.

  function OpReadPrior(s: State, job: Job): State {
    match Inspect(s.disk)
    case Err(_) => Fail(s, job)
    case Ok(prior) =>
      if prior.Installed? && prior.rel != job.pkg.rel then Fail(s, job)
      else At(s, ClearStaged, job.(prior := prior))
  }

  function OpStage(s: State, job: Job, ok: bool): State {
    var dirs, n := s.disk.dirs, Staged(job.version);
    if ok && CanRenameTo(dirs, n) then At(Dirs(s, dirs[n := job.pkg.tree]), ClearBackup, job) else Fail(s, job)
  }

  function OpBackup(s: State, job: Job, ok: bool): State {
    var dirs, v := s.disk.dirs, job.version;
    if v !in dirs then At(s, Activate, job.(existed := false))
    else if ok && CanRenameTo(dirs, BackupOf(v)) then
      At(Dirs(s, RenameDir(dirs, v, BackupOf(v))), Activate, job.(existed := true))
    else At(s, DropStaged, job)
  }

  function OpActivate(s: State, job: Job, ok: bool): State {
    var dirs, v := s.disk.dirs, job.version;
    if ok && CanRenameTo(dirs, v) && Staged(v) in dirs then At(Dirs(s, RenameDir(dirs, Staged(v), v)), Validate, job)
    else At(s, DropActivated, job)
  }

  function OpCheck(s: State, job: Job, good: bool, next: Pc): State {
    At(s, if good then next else RollbackRemove, job)
  }

  /** validateExtractedBinaryPath on the directory in place. */
  predicate ValidInPlace(dirs: map<Name, Tree>, v: Name, rel: Path) { v in dirs && Validates(dirs[v], rel) }

  function OpPrepare(s: State, job: Job, ok: bool): State {
    if job.prior.NotInstalled? then At(s, MkBin, job) else ReplaceCurrent(s, job, job.prior.version, ok, MkBin)
  }

  function OpLinkAgent(s: State, job: Job, ok: bool): State {
    if ok then At(s.(disk := s.disk.(agent := ViaCurrent(job.pkg.rel))), LinkCursor, job)
    else At(s, RollbackRemove, job)
  }

  function OpLinkCursor(s: State, job: Job, ok: bool): State {
    if ok then At(s.(disk := s.disk.(cursorAgent := ViaCurrent(job.pkg.rel))), Swap, job)
    else At(s, RollbackRemove, job)
  }

  function OpSwap(s: State, job: Job, ok: bool): State {
    var s1 := ReplaceCurrent(s, job, job.version, ok, Commit);
    if s1.phase.pc.Commit? then s1.(stands := Installed(job.version, RealBin(job.pkg))) else s1
  }

  function OpRestore(s: State, job: Job, ok: bool): State {
    var dirs, v := s.disk.dirs, job.version;
    if ok && CanRenameTo(dirs, v) && BackupOf(v) in dirs
    then AfterRollback(Dirs(s, RenameDir(dirs, BackupOf(v), v)), job)
    else AfterRollback(s, job.(tidy := false))
  }

  /** Unlinks a bin link, if its text is one that the clean-up removes. */
  function CleanAgentIf(s: State, job: Job, mine: bool, ok: bool): State {
    if !mine then At(s, CleanCursor, job)
    else if ok then At(s.(disk := s.disk.(agent := Absent)), CleanCursor, job)
    else At(s, CleanCursor, job.(tidy := false))
  }

  function CleanCursorIf(s: State, job: Job, mine: bool, ok: bool): State {
    if !mine then At(s, CleanCurrent, job)
    else if ok then At(s.(disk := s.disk.(cursorAgent := Absent)), CleanCurrent, job)
    else At(s, CleanCurrent, job.(tidy := false))
  }

  function OpCleanCurrent(s: State, job: Job, ok: bool): State {
    if ok then Fail(s.(disk := s.disk.(current := None)), job)
    else Fail(s, job.(tidy := s.disk.current.None? && job.tidy))
  }

  function StepOp(s: State, pc: Pc, job: Job, ok: bool): State {
    match pc
    case MkVersions => if ok then At(s, ReadPrior, job) else Fail(s, job)
    case ReadPrior => OpReadPrior(s, job)
    case Stage => OpStage(s, job, ok)
    case Backup => OpBackup(s, job, ok)
    case Activate => OpActivate(s, job, ok)
    case Validate => OpCheck(s, job, ValidInPlace(s.disk.dirs, job.version, job.pkg.rel), Prepare)
    case Prepare => OpPrepare(s, job, ok)
    case MkBin => OpCheck(s, job, ok, LinkAgent)
    case LinkAgent => OpLinkAgent(s, job, ok)
    case LinkCursor => OpLinkCursor(s, job, ok)
    case Swap => OpSwap(s, job, ok)
    case RollbackRestore => OpRestore(s, job, ok)
    case CleanAgent => CleanAgentIf(s, job, HasCurrentInside(s.disk, s.disk.agent), ok)
    case CleanCursor => CleanCursorIf(s, job, HasCurrentInside(s.disk, s.disk.cursorAgent), ok)
    case CleanCurrent => OpCleanCurrent(s, job, ok)
    case _ => s
  }

  /** Removing one directory on the way to the next step. */
  function Removed(s: State, n: Name, keep: Option<set<Path>>): State {
    Dirs(s, RemoveDir(s.disk.dirs, n, keep))
  }

  function RemoveBackup(s: State, job: Job, keep: Option<set<Path>>): State {
    var gone := BackupOf(job.version) in s.disk.dirs ==> keep.None?;
    Removed(s, BackupOf(job.version), keep)
      .(phase := Finished(job.version, true, Some(job.pkg), job.entry, job.tidy && gone))
  }

  function RemoveVersion(s: State, job: Job, keep: Option<set<Path>>): State {
    var s1 := Removed(s, job.version, keep);
    var job1 := job.(tidy := job.tidy && (job.version in s.disk.dirs ==> keep.None?));
    if job.existed then At(s1, RollbackRestore, job1) else AfterRollback(s1, job1)
  }

  function StepRemove(s: State, pc: Pc, job: Job, keep: Option<set<Path>>): State {
    match pc
    case ClearStaged => At(Removed(s, Staged(job.version), keep), Stage, job)
    case ClearBackup => At(Removed(s, BackupOf(job.version), keep), Backup, job)
    case DropStaged => Fail(Removed(s, Staged(job.version), keep), job)
    case DropActivated => At(Removed(s, Staged(job.version), keep), RollbackRemove, job)
    case Commit => RemoveBackup(s, job, keep)
    case RollbackRemove => RemoveVersion(s, job, keep)
    case _ => s
  }

  /** One step. An event the current phase does not wait for changes nothing. */
  function Step(s: State, e: Event): State {
    match (s.phase, e)
    case (_, Crash) => s.(phase := Idle)
    case (Idle, Begin(v)) => BeginAt(s, v)
    case (Finished(_, _, _, _, _), Begin(v)) => BeginAt(s, v)
    case (Fetching(v, entry), Fetch(pkg)) =>
      if pkg.Some? && Verified(pkg.value.tree, pkg.value.rel, v) && Validates(pkg.value.tree, pkg.value.rel)
      then At(s, MkVersions, Job(v, pkg.value, NotInstalled, false, entry, true))
      else s.(phase := Finished(v, false, pkg, entry, true))
    case (Running(pc, job), Op(ok)) => StepOp(s, pc, job, ok)
    case (Running(pc, job), Remove(keep)) => StepRemove(s, pc, job, keep)
    case _ => s
  }

  /** A call for the version already active returns at once. */
  function BeginAt(s: State, v: Name): State {
    match Inspect(s.disk)
    case Ok(Installed(w, _)) =>
      if w == v then s.(phase := Finished(v, true, None, s.disk, true)) else s.(phase := Fetching(v, s.disk))
    case _ => s.(phase := Fetching(v, s.disk))
  }

  /** A whole run: any number of calls, failures and crashes. */
  function Run(s: State, events: seq<Event>): State {
    if events == [] then s else Step(Run(s, events[..|events| - 1]), events[|events| - 1])
  }
}
