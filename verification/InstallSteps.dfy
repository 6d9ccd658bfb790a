/** The invariant of the installer, and that every step keeps it. */
module InstallSteps {
  import opened Wrappers
  import opened Paths
  import opened Resolve
  import opened Layout
  import opened InstallMachine
  import opened InstallSafety

  // ---------------------------------------------------------------- the invariant

  ghost predicate LinksSame(d: Disk, entry: Disk) {
    d.current == entry.current && d.agent == entry.agent && d.cursorAgent == entry.cursorAgent
  }

  ghost predicate NoLinks(d: Disk) { d.current.None? && d.agent.Absent? && d.cursorAgent.Absent? }

  ghost predicate TreeIn(d: Disk, n: Name, t: Tree) { n in d.dirs && d.dirs[n] == t }

  /** The new tree has been moved from its staging name to its own. */
  ghost predicate MovedIn(d: Disk, job: Job) { TreeIn(d, job.version, job.pkg.tree) && Staged(job.version) !in d.dirs }

  /** What the deferred rollback needs: the earlier directory, put aside. */
  ghost predicate Saved(d: Disk, job: Job) {
    if job.existed
    then job.version in job.entry.dirs && TreeIn(d, BackupOf(job.version), job.entry.dirs[job.version])
    else job.version !in job.entry.dirs
  }

  ghost predicate Untouched(d: Disk, job: Job) {
    SameAt(d.dirs, job.entry.dirs, job.version) && LinksSame(d, job.entry)
  }

  /** The new tree is in place, the old one put aside, and `current` is as it has to be
      before the links are replaced. */
  ghost predicate Prepared(d: Disk, job: Job) {
    && Saved(d, job) && MovedIn(d, job)
    && d.current == if job.prior.Installed? then Some(job.prior.version) else job.entry.current
  }

  ghost predicate PcFacts(pc: Pc, d: Disk, job: Job) {
    var v := job.version;
    match pc
    case MkVersions => d == job.entry
    case ReadPrior => d == job.entry
    case ClearStaged => Untouched(d, job)
    case Stage => Untouched(d, job)
    case ClearBackup => Untouched(d, job) && TreeIn(d, Staged(v), job.pkg.tree)
    case Backup => Untouched(d, job) && TreeIn(d, Staged(v), job.pkg.tree)
    case DropStaged => Untouched(d, job)
    case Activate => Saved(d, job) && v !in d.dirs && LinksSame(d, job.entry) && TreeIn(d, Staged(v), job.pkg.tree)
    case DropActivated => Saved(d, job) && v !in d.dirs && LinksSame(d, job.entry)
    case Validate => Saved(d, job) && MovedIn(d, job) && LinksSame(d, job.entry)
    case Prepare => Saved(d, job) && MovedIn(d, job) && LinksSame(d, job.entry)
    case MkBin => Prepared(d, job)
    case LinkAgent => Prepared(d, job)
    case LinkCursor => Prepared(d, job) && d.agent == ViaCurrent(job.pkg.rel)
    case Swap => Prepared(d, job) && d.agent == d.cursorAgent == ViaCurrent(job.pkg.rel)
    case Commit => MovedIn(d, job)
    case RollbackRemove => Saved(d, job)
    case RollbackRestore => Saved(d, job) && job.existed && (job.tidy ==> v !in d.dirs)
    case CleanAgent => job.prior.NotInstalled? && (job.tidy ==> SameAt(d.dirs, job.entry.dirs, v))
    case CleanCursor =>
      && job.prior.NotInstalled?
      && (job.tidy ==> SameAt(d.dirs, job.entry.dirs, v) && !d.agent.ViaCurrent?)
    case CleanCurrent =>
      && job.prior.NotInstalled?
      && (job.tidy ==> SameAt(d.dirs, job.entry.dirs, v) && !d.agent.ViaCurrent? && !d.cursorAgent.ViaCurrent?)
  }

  /** How far the job knows what the root stands for. */
  ghost predicate Known(pc: Pc, job: Job, i: Install) {
    if pc.Commit? then i == Installed(job.version, RealBin(job.pkg))
    else
      && (i.Installed? ==> i.version != job.version)
      && (!pc.MkVersions? && !pc.ReadPrior? ==> job.prior == i && (i.Installed? ==> i.rel == job.pkg.rel))
  }

  ghost predicate RunningOk(world: World, pc: Pc, d: Disk, job: Job, i: Install) {
    && Offered(world, job.version, job.pkg) && job.version in world.names
    && Framed(d, job.entry, job.version) && Known(pc, job, i) && PcFacts(pc, d, job)
  }

  /** How a call ends: with the version asked for, or with nothing changed. */
  ghost predicate FinishedOk(d: Disk, f: Phase, i: Install)
    requires f.Finished?
  {
    && Framed(d, f.entry, f.version)
    && (f.success ==> i.Installed? && i.version == f.version)
    && (f.success && f.fetched.None? ==> d == f.entry)
    && (f.success && f.fetched.Some? ==>
          && i == Installed(f.version, RealBin(f.fetched.value))
          && TreeIn(d, f.version, f.fetched.value.tree) && Staged(f.version) !in d.dirs
          && (f.tidy ==> BackupOf(f.version) !in d.dirs))
    && (!f.success && f.tidy ==> SameAt(d.dirs, f.entry.dirs, f.version))
    && (!f.success && f.tidy && NoLinks(f.entry) ==> NoLinks(d))
  }

  ghost predicate PhaseOk(world: World, s: State) {
    match s.phase
    case Idle => true
    case Fetching(v, entry) =>
      v in world.asked && v in world.names && s.disk == entry && (s.stands.Installed? ==> s.stands.version != v)
    case Running(pc, job) => RunningOk(world, pc, s.disk, job, s.stands)
    case Finished(_, _, _, _, _) => FinishedOk(s.disk, s.phase, s.stands)
  }

  /** Until the swap, the root stands for what it stood for when the call began. */
  ghost predicate EntryOk(world: World, s: State) {
    match s.phase
    case Running(pc, job) => Wf(job.entry) && (!pc.Commit? ==> Stands(world, job.entry, s.stands))
    case Finished(_, success, _, entry, _) => Wf(entry) && (!success ==> Stands(world, entry, s.stands))
    case _ => true
  }

  ghost predicate Inv(world: World, s: State) {
    Root(world, s.disk, s.stands) && PhaseOk(world, s) && EntryOk(world, s)
  }

  /** A version asked for, or a package that, should it pass for such a version, is one of
      those offered. */
  ghost predicate EventOk(world: World, e: Event) {
    match e
    case Begin(v) => v in world.asked
    case Fetch(Some(p)) => Genuine(p) && forall v :: v in world.asked && PackageOk(p, v) ==> Offered(world, v, p)
    case _ => true
  }

  lemma OutsideTwice(a: map<Name, Tree>, b: map<Name, Tree>, c: map<Name, Tree>, v: Name)
    requires Outside(a, b, v) && Outside(b, c, v)
    ensures Outside(a, c, v)
  {
    forall n | n != v && n != Staged(v) && n != BackupOf(v) ensures SameAt(a, c, n) {
      assert SameAt(a, b, n) && SameAt(b, c, n);
    }
  }

  // ---------------------------------------------------------------- what a step makes of the job

  lemma PhaseClearStaged(world: World, s: State, keep: Option<set<Path>>)
    requires PhaseOk(world, s) && s.phase.Running? && Plain(s.phase.job.version)
    requires s.phase.pc.ClearStaged? || s.phase.pc.DropStaged? || s.phase.pc.DropActivated?
    ensures PhaseOk(world, StepRemove(s, s.phase.pc, s.phase.job, keep))
  {
    var d, v := s.disk.dirs, s.phase.job.version;
    var dirs' := RemoveDir(d, Staged(v), keep);
    SiblingPlain(v);
    RemoveOutside(d, Staged(v), keep);
    assert SameAt(dirs', d, v) && SameAt(dirs', d, BackupOf(v));
    OutsideTwice(dirs', d, s.phase.job.entry.dirs, v);
  }

  lemma PhaseClearBackup(world: World, s: State, keep: Option<set<Path>>)
    requires PhaseOk(world, s) && s.phase.Running? && s.phase.pc.ClearBackup? && Plain(s.phase.job.version)
    ensures PhaseOk(world, StepRemove(s, s.phase.pc, s.phase.job, keep))
  {
    var d, v := s.disk.dirs, s.phase.job.version;
    var dirs' := RemoveDir(d, BackupOf(v), keep);
    SiblingPlain(v);
    RemoveOutside(d, BackupOf(v), keep);
    assert SameAt(dirs', d, v) && SameAt(dirs', d, Staged(v));
    OutsideTwice(dirs', d, s.phase.job.entry.dirs, v);
  }

  lemma PhaseStage(world: World, s: State, ok: bool)
    requires PhaseOk(world, s) && s.phase.Running? && s.phase.pc.Stage? && Plain(s.phase.job.version)
    ensures PhaseOk(world, OpStage(s, s.phase.job, ok))
  {
    var d, v := s.disk.dirs, s.phase.job.version;
    SiblingPlain(v);
    OutsideTwice(d[Staged(v) := s.phase.job.pkg.tree], d, s.phase.job.entry.dirs, v);
  }

  lemma PhaseBackup(world: World, s: State, ok: bool)
    requires PhaseOk(world, s) && s.phase.Running? && s.phase.pc.Backup? && Plain(s.phase.job.version)
    ensures PhaseOk(world, OpBackup(s, s.phase.job, ok))
  {
    var d, v := s.disk.dirs, s.phase.job.version;
    SiblingPlain(v);
    if v in d {
      var dirs' := RenameDir(d, v, BackupOf(v));
      RenameOutside(d, v, BackupOf(v));
      assert SameAt(dirs', d, Staged(v));
      OutsideTwice(dirs', d, s.phase.job.entry.dirs, v);
    }
  }

  lemma PhaseActivate(world: World, s: State, ok: bool)
    requires PhaseOk(world, s) && s.phase.Running? && s.phase.pc.Activate? && Plain(s.phase.job.version)
    ensures PhaseOk(world, OpActivate(s, s.phase.job, ok))
  {
    var d, v := s.disk.dirs, s.phase.job.version;
    SiblingPlain(v);
    var dirs' := RenameDir(d, Staged(v), v);
    RenameOutside(d, Staged(v), v);
    assert SameAt(dirs', d, BackupOf(v));
    OutsideTwice(dirs', d, s.phase.job.entry.dirs, v);
  }

  lemma PhaseCheck(world: World, s: State, good: bool)
    requires PhaseOk(world, s) && s.phase.Running? && (s.phase.pc.Validate? || s.phase.pc.MkBin?)
    ensures PhaseOk(world, OpCheck(s, s.phase.job, good, if s.phase.pc.Validate? then Prepare else LinkAgent))
  {}

  /** How replaceCurrentLink may leave things. */
  ghost predicate Replaced(s: State, job: Job, v: Name, next: Pc, s': State) {
    && s'.stands == s.stands && (s'.disk == s.disk || s'.disk == s.disk.(current := Some(v)))
    && (s'.phase == Running(RollbackRemove, job) || (s'.phase == Running(next, job) && s'.disk.current == Some(v)))
  }

  lemma ReplaceCurrentLeaves(s: State, job: Job, v: Name, ok: bool, next: Pc)
    ensures Replaced(s, job, v, next, ReplaceCurrent(s, job, v, ok, next))
  {}

  lemma PhasePrepared(world: World, s: State, job: Job, s': State)
    requires PhaseOk(world, s) && s.phase == Running(Prepare, job)
    requires if job.prior.Installed? then Replaced(s, job, job.prior.version, MkBin, s') else s' == At(s, MkBin, job)
    ensures PhaseOk(world, s')
  {}

  lemma PhasePrepare(world: World, s: State, ok: bool)
    requires PhaseOk(world, s) && s.phase.Running? && s.phase.pc.Prepare?
    ensures PhaseOk(world, OpPrepare(s, s.phase.job, ok))
  {
    var job := s.phase.job;
    if job.prior.Installed? { ReplaceCurrentLeaves(s, job, job.prior.version, ok, MkBin); }
    PhasePrepared(world, s, job, OpPrepare(s, job, ok));
  }

  lemma PhaseLinkAgent(world: World, s: State, ok: bool)
    requires PhaseOk(world, s) && s.phase.Running? && s.phase.pc.LinkAgent?
    ensures PhaseOk(world, OpLinkAgent(s, s.phase.job, ok))
  {}

  lemma PhaseLinkCursor(world: World, s: State, ok: bool)
    requires PhaseOk(world, s) && s.phase.Running? && s.phase.pc.LinkCursor?
    ensures PhaseOk(world, OpLinkCursor(s, s.phase.job, ok))
  {}

  lemma PhaseSwap(world: World, s: State, ok: bool)
    requires PhaseOk(world, s) && s.phase.Running? && s.phase.pc.Swap?
    ensures PhaseOk(world, OpSwap(s, s.phase.job, ok))
  {}

  lemma PhaseCommit(world: World, s: State, keep: Option<set<Path>>)
    requires PhaseOk(world, s) && s.phase.Running? && s.phase.pc.Commit? && Plain(s.phase.job.version)
    ensures PhaseOk(world, RemoveBackup(s, s.phase.job, keep))
  {
    var d, v := s.disk.dirs, s.phase.job.version;
    var dirs' := RemoveDir(d, BackupOf(v), keep);
    SiblingPlain(v);
    RemoveOutside(d, BackupOf(v), keep);
    assert SameAt(dirs', d, v) && SameAt(dirs', d, Staged(v));
    OutsideTwice(dirs', d, s.phase.job.entry.dirs, v);
  }

  /** The end of the rollback's work on directories. */
  lemma PhaseAfterRollback(world: World, s: State, job: Job)
    requires Offered(world, job.version, job.pkg) && job.version in world.names
    requires Framed(s.disk, job.entry, job.version) && Known(RollbackRemove, job, s.stands)
    requires job.tidy ==> SameAt(s.disk.dirs, job.entry.dirs, job.version)
    requires job.prior.Installed? ==> !NoLinks(job.entry)
    ensures PhaseOk(world, AfterRollback(s, job))
  {}

  lemma PhaseRollbackRemove(world: World, s: State, keep: Option<set<Path>>)
    requires PhaseOk(world, s) && s.phase.Running? && s.phase.pc.RollbackRemove? && Plain(s.phase.job.version)
    requires s.phase.job.prior.Installed? ==> !NoLinks(s.phase.job.entry)
    ensures PhaseOk(world, RemoveVersion(s, s.phase.job, keep))
  {
    var d, job := s.disk.dirs, s.phase.job;
    var v := job.version;
    SiblingPlain(v);
    var dirs' := RemoveDir(d, v, keep);
    RemoveOutside(d, v, keep);
    assert SameAt(dirs', d, BackupOf(v));
    OutsideTwice(dirs', d, job.entry.dirs, v);
    if !job.existed {
      var tidy := job.tidy && (v in d ==> keep.None?);
      PhaseAfterRollback(world, Removed(s, v, keep), job.(tidy := tidy));
    }
  }

  lemma PhaseRollbackRestore(world: World, s: State, ok: bool)
    requires PhaseOk(world, s) && s.phase.Running? && s.phase.pc.RollbackRestore? && Plain(s.phase.job.version)
    requires s.phase.job.prior.Installed? ==> !NoLinks(s.phase.job.entry)
    ensures PhaseOk(world, OpRestore(s, s.phase.job, ok))
  {
    var d, job := s.disk.dirs, s.phase.job;
    var v := job.version;
    SiblingPlain(v);
    var dirs' := RenameDir(d, BackupOf(v), v);
    RenameOutside(d, BackupOf(v), v);
    OutsideTwice(dirs', d, job.entry.dirs, v);
    if ok && CanRenameTo(d, v) {
      PhaseAfterRollback(world, Dirs(s, dirs'), job);
    } else {
      PhaseAfterRollback(world, s, job.(tidy := false));
    }
  }

  lemma CurrentInside(d: Disk, b: BinLink)
    requires b.ViaCurrent? && b.rel != []
    ensures HasCurrentInside(d, b)
  {
    LinkTextIs(d, b);
    assert LinkText(d, b)[3] == "current";
  }

  lemma PhaseCleanAgent(world: World, s: State, mine: bool, ok: bool)
    requires PhaseOk(world, s) && s.phase.Running? && s.phase.pc.CleanAgent?
    requires s.disk.agent.ViaCurrent? ==> mine
    ensures PhaseOk(world, CleanAgentIf(s, s.phase.job, mine, ok))
  {}

  lemma PhaseCleanCursor(world: World, s: State, mine: bool, ok: bool)
    requires PhaseOk(world, s) && s.phase.Running? && s.phase.pc.CleanCursor?
    requires s.disk.cursorAgent.ViaCurrent? ==> mine
    ensures PhaseOk(world, CleanCursorIf(s, s.phase.job, mine, ok))
  {}

  lemma PhaseCleanCurrent(world: World, s: State, ok: bool)
    requires PhaseOk(world, s) && s.phase.Running? && s.phase.pc.CleanCurrent?
    ensures PhaseOk(world, OpCleanCurrent(s, s.phase.job, ok))
  {}

  lemma PhaseReadPrior(world: World, s: State)
    requires PhaseOk(world, s) && s.phase.Running? && s.phase.pc.ReadPrior? && Inspect(s.disk) == Ok(s.stands)
    ensures PhaseOk(world, OpReadPrior(s, s.phase.job))
  {}

  lemma PhaseFetch(world: World, s: State, pkg: Option<Package>)
    requires PhaseOk(world, s) && s.phase.Fetching? && EventOk(world, Fetch(pkg))
    ensures PhaseOk(world, Step(s, Fetch(pkg)))
  {}

  lemma PhaseBegin(world: World, s: State, v: Name)
    requires Inspect(s.disk) == Ok(s.stands) && v in world.asked && v in world.names
    ensures PhaseOk(world, BeginAt(s, v))
  {}

  // ---------------------------------------------------------------- what a step makes of the root

  /** The running job's version is an offered one, and not the installed one. */
  ghost predicate AtWork(world: World, s: State) {
    && s.phase.Running? && Offered(world, s.phase.job.version, s.phase.job.pkg) && s.phase.job.version in world.names
    && Framed(s.disk, s.phase.job.entry, s.phase.job.version)
    && (s.stands.Installed? ==> s.stands.version != s.phase.job.version)
  }

  lemma RootClear(world: World, s: State, n: Name, keep: Option<set<Path>>)
    requires NamesOk(world.names) && Root(world, s.disk, s.stands) && AtWork(world, s)
    requires var v := s.phase.job.version; n == v || n == Staged(v) || n == BackupOf(v)
    ensures Root(world, Removed(s, n, keep).disk, s.stands)
  {
    var d, job := s.disk, s.phase.job;
    var v := job.version;
    SiblingPlain(v);
    var dirs' := RemoveDir(d.dirs, n, keep);
    RemoveDirOk(d.dirs, n, keep);
    assert n != v ==> SameAt(dirs', d.dirs, v);
    JobDirsLess(world, d, s.stands, v, job.pkg, job.entry, dirs');
  }

  lemma RootStage(world: World, s: State, ok: bool)
    requires WorldOk(world) && Root(world, s.disk, s.stands) && AtWork(world, s)
    ensures Root(world, OpStage(s, s.phase.job, ok).disk, s.stands)
  {
    var d, job := s.disk, s.phase.job;
    var v := job.version;
    SiblingPlain(v);
    var dirs' := d.dirs[Staged(v) := job.pkg.tree];
    assert SameAt(dirs', d.dirs, v);
    JobDirsLess(world, d, s.stands, v, job.pkg, job.entry, dirs');
  }

  lemma RootBackup(world: World, s: State, ok: bool)
    requires NamesOk(world.names) && Root(world, s.disk, s.stands) && AtWork(world, s)
    ensures Root(world, OpBackup(s, s.phase.job, ok).disk, s.stands)
  {
    var d, job := s.disk, s.phase.job;
    var v := job.version;
    SiblingPlain(v);
    if v in d.dirs {
      RenameDirOk(d.dirs, v, BackupOf(v));
      JobDirsLess(world, d, s.stands, v, job.pkg, job.entry, RenameDir(d.dirs, v, BackupOf(v)));
    }
  }

  lemma RootActivate(world: World, s: State, ok: bool)
    requires NamesOk(world.names) && Root(world, s.disk, s.stands) && AtWork(world, s)
    requires TreeIn(s.disk, Staged(s.phase.job.version), s.phase.job.pkg.tree)
    ensures Root(world, OpActivate(s, s.phase.job, ok).disk, s.stands)
  {
    var d, job := s.disk, s.phase.job;
    var v := job.version;
    SiblingPlain(v);
    RenameDirOk(d.dirs, Staged(v), v);
    assert s.stands.NotInstalled? ==> Quiet(d, v, job.pkg);
    JobDirs(world, d, s.stands, v, job.pkg, job.entry, RenameDir(d.dirs, Staged(v), v));
  }

  lemma RootPrepare(world: World, s: State, ok: bool)
    requires Root(world, s.disk, s.stands) && s.phase.Running? && s.phase.job.prior == s.stands
    ensures Root(world, OpPrepare(s, s.phase.job, ok).disk, s.stands)
  {
    if s.stands.Installed? {
      ReplaceCurrentLeaves(s, s.phase.job, s.stands.version, ok, MkBin);
      PointCurrent(s.disk, s.stands.version, s.stands.rel);
    }
  }

  lemma RootSwap(world: World, s: State, ok: bool)
    requires Root(world, s.disk, s.stands) && s.phase.Running? && s.phase.job.version in world.names
    requires var job := s.phase.job;
             && PackageOk(job.pkg, job.version) && MovedIn(s.disk, job)
             && s.disk.agent == s.disk.cursorAgent == ViaCurrent(job.pkg.rel)
    ensures Root(world, OpSwap(s, s.phase.job, ok).disk, OpSwap(s, s.phase.job, ok).stands)
  {
    SwapInstalls(s.disk, s.phase.job.version, s.phase.job.pkg);
  }

  lemma RootCommit(world: World, s: State, keep: Option<set<Path>>)
    requires Root(world, s.disk, s.stands) && s.phase.Running? && Plain(s.phase.job.version)
    requires s.stands.Installed? && s.stands.version == s.phase.job.version
    ensures Root(world, Removed(s, BackupOf(s.phase.job.version), keep).disk, s.stands)
  {
    var d, v := s.disk, s.phase.job.version;
    SiblingPlain(v);
    RemoveDirOk(d.dirs, BackupOf(v), keep);
    assert SameAt(RemoveDir(d.dirs, BackupOf(v), keep), d.dirs, v);
    DirsElsewhere(d, RemoveDir(d.dirs, BackupOf(v), keep), v, s.stands.rel);
  }

  lemma RootRestore(world: World, s: State, ok: bool)
    requires NamesOk(world.names) && Root(world, s.disk, s.stands) && AtWork(world, s)
    requires Saved(s.disk, s.phase.job) && s.phase.job.existed && Stands(world, s.phase.job.entry, s.stands)
    ensures Root(world, OpRestore(s, s.phase.job, ok).disk, s.stands)
  {
    var d, job := s.disk, s.phase.job;
    var v := job.version;
    SiblingPlain(v);
    RenameDirOk(d.dirs, BackupOf(v), v);
    if s.stands.NotInstalled? { DanglesRestored(d, job.entry, v); }
    JobDirs(world, d, s.stands, v, job.pkg, job.entry, RenameDir(d.dirs, BackupOf(v), v));
  }

  // ---------------------------------------------------------------- every step keeps the invariant

  lemma InstalledHasLinks(world: World, d: Disk, i: Install)
    requires Stands(world, d, i)
    ensures i.Installed? ==> !NoLinks(d)
  {}

  lemma WorkingFacts(world: World, s: State)
    requires WorldOk(world) && PhaseOk(world, s) && EntryOk(world, s) && s.phase.Running?
    ensures Plain(s.phase.job.version) && PackageOk(s.phase.job.pkg, s.phase.job.version)
    ensures !s.phase.pc.Commit? ==> AtWork(world, s)
    ensures s.phase.pc.RollbackRemove? || s.phase.pc.RollbackRestore? ==>
              s.phase.job.prior.Installed? ==> !NoLinks(s.phase.job.entry)
  {
    if !s.phase.pc.Commit? { InstalledHasLinks(world, s.phase.job.entry, s.stands); }
  }

  /** What the steps need to know about a running job. */
  ghost predicate Fit(s: State) {
    && s.phase.Running? && Plain(s.phase.job.version)
    && (s.phase.pc.ReadPrior? ==> Inspect(s.disk) == Ok(s.stands))
    && (s.phase.pc.RollbackRemove? || s.phase.pc.RollbackRestore? ==>
          s.phase.job.prior.Installed? ==> !NoLinks(s.phase.job.entry))
  }

  lemma PhaseOpsForth(world: World, s: State, ok: bool)
    requires PhaseOk(world, s) && Fit(s)
    requires var pc := s.phase.pc;
             !pc.RollbackRestore? && !pc.CleanAgent? && !pc.CleanCursor? && !pc.CleanCurrent?
    ensures PhaseOk(world, StepOp(s, s.phase.pc, s.phase.job, ok))
  {
    match s.phase.pc {
      case ReadPrior => PhaseReadPrior(world, s);
      case Stage => PhaseStage(world, s, ok);
      case Backup => PhaseBackup(world, s, ok);
      case Activate => PhaseActivate(world, s, ok);
      case Validate => PhaseCheck(world, s, ValidInPlace(s.disk.dirs, s.phase.job.version, s.phase.job.pkg.rel));
      case Prepare => PhasePrepare(world, s, ok);
      case MkBin => PhaseCheck(world, s, ok);
      case LinkAgent => PhaseLinkAgent(world, s, ok);
      case LinkCursor => PhaseLinkCursor(world, s, ok);
      case Swap => PhaseSwap(world, s, ok);
      case _ =>
    }
  }

  lemma PhaseOpsBack(world: World, s: State, ok: bool)
    requires PhaseOk(world, s) && Fit(s) && BinOk(s.disk.agent) && BinOk(s.disk.cursorAgent)
    requires var pc := s.phase.pc;
             pc.RollbackRestore? || pc.CleanAgent? || pc.CleanCursor? || pc.CleanCurrent?
    ensures PhaseOk(world, StepOp(s, s.phase.pc, s.phase.job, ok))
  {
    var d := s.disk;
    match s.phase.pc {
      case RollbackRestore => PhaseRollbackRestore(world, s, ok);
      case CleanAgent =>
        if d.agent.ViaCurrent? { CurrentInside(d, d.agent); }
        PhaseCleanAgent(world, s, HasCurrentInside(d, d.agent), ok);
      case CleanCursor =>
        if d.cursorAgent.ViaCurrent? { CurrentInside(d, d.cursorAgent); }
        PhaseCleanCursor(world, s, HasCurrentInside(d, d.cursorAgent), ok);
      case CleanCurrent => PhaseCleanCurrent(world, s, ok);
    }
  }

  lemma PhaseRemoves(world: World, s: State, keep: Option<set<Path>>)
    requires PhaseOk(world, s) && Fit(s)
    ensures PhaseOk(world, StepRemove(s, s.phase.pc, s.phase.job, keep))
  {
    match s.phase.pc {
      case ClearStaged => PhaseClearStaged(world, s, keep);
      case DropStaged => PhaseClearStaged(world, s, keep);
      case DropActivated => PhaseClearStaged(world, s, keep);
      case ClearBackup => PhaseClearBackup(world, s, keep);
      case Commit => PhaseCommit(world, s, keep);
      case RollbackRemove => PhaseRollbackRemove(world, s, keep);
      case _ =>
    }
  }

  lemma RootOpsDirs(world: World, s: State, ok: bool)
    requires WorldOk(world) && Root(world, s.disk, s.stands) && PhaseOk(world, s) && AtWork(world, s)
    requires s.phase.pc.Stage? || s.phase.pc.Backup? || s.phase.pc.Activate?
    ensures Root(world, StepOp(s, s.phase.pc, s.phase.job, ok).disk, s.stands)
  {
    match s.phase.pc {
      case Stage => RootStage(world, s, ok);
      case Backup => RootBackup(world, s, ok);
      case Activate => RootActivate(world, s, ok);
    }
  }

  lemma RootOpsLinks(world: World, s: State, ok: bool)
    requires Root(world, s.disk, s.stands) && PhaseOk(world, s) && AtWork(world, s)
    requires PackageOk(s.phase.job.pkg, s.phase.job.version)
    requires s.phase.pc.Prepare? || s.phase.pc.LinkAgent? || s.phase.pc.LinkCursor?
    ensures Root(world, StepOp(s, s.phase.pc, s.phase.job, ok).disk, s.stands)
  {
    var job := s.phase.job;
    if s.phase.pc.Prepare? {
      RootPrepare(world, s, ok);
    } else {
      LinkUnseen(world, s.disk, s.stands, job.version, job.pkg);
    }
  }

  lemma RootCleans(world: World, s: State, ok: bool)
    requires Root(world, s.disk, s.stands) && s.phase.Running? && s.stands.NotInstalled?
    requires s.phase.pc.CleanAgent? || s.phase.pc.CleanCursor? || s.phase.pc.CleanCurrent?
    ensures Root(world, StepOp(s, s.phase.pc, s.phase.job, ok).disk, s.stands)
  {
    DormantUnlinked(world, s.disk);
  }

  lemma RootRemoves(world: World, s: State, keep: Option<set<Path>>)
    requires NamesOk(world.names) && Root(world, s.disk, s.stands) && PhaseOk(world, s) && s.phase.Running?
    requires Plain(s.phase.job.version) && (!s.phase.pc.Commit? ==> AtWork(world, s))
    ensures Root(world, StepRemove(s, s.phase.pc, s.phase.job, keep).disk, s.stands)
  {
    var v := s.phase.job.version;
    match s.phase.pc {
      case ClearStaged => RootClear(world, s, Staged(v), keep);
      case DropStaged => RootClear(world, s, Staged(v), keep);
      case DropActivated => RootClear(world, s, Staged(v), keep);
      case ClearBackup => RootClear(world, s, BackupOf(v), keep);
      case RollbackRemove => RootClear(world, s, v, keep);
      case Commit => RootCommit(world, s, keep);
      case _ =>
    }
  }

  /** The operations that touch neither directories nor links. */
  lemma OtherOps(s: State, ok: bool)
    requires s.phase.Running?
    requires s.phase.pc in {MkVersions, ReadPrior, ClearStaged, ClearBackup, DropStaged, DropActivated,
                            Validate, MkBin, Commit, RollbackRemove}
    ensures var s' := StepOp(s, s.phase.pc, s.phase.job, ok); s'.disk == s.disk && s'.stands == s.stands
  {}

  lemma RootOpsRest(world: World, s: State, ok: bool)
    requires NamesOk(world.names) && Root(world, s.disk, s.stands) && PhaseOk(world, s) && s.phase.Running?
    requires !s.phase.pc.Commit? ==> AtWork(world, s) && Stands(world, s.phase.job.entry, s.stands)
    requires var pc := s.phase.pc;
             && !pc.Stage? && !pc.Backup? && !pc.Activate?
             && !pc.Prepare? && !pc.LinkAgent? && !pc.LinkCursor? && !pc.Swap?
    ensures var s' := StepOp(s, s.phase.pc, s.phase.job, ok); Root(world, s'.disk, s'.stands)
  {
    match s.phase.pc {
      case RollbackRestore => RootRestore(world, s, ok);
      case CleanAgent => RootCleans(world, s, ok);
      case CleanCursor => RootCleans(world, s, ok);
      case CleanCurrent => RootCleans(world, s, ok);
      case _ => OtherOps(s, ok);
    }
  }

  lemma RootOps(world: World, s: State, ok: bool)
    requires WorldOk(world) && Root(world, s.disk, s.stands) && PhaseOk(world, s) && s.phase.Running?
    requires PackageOk(s.phase.job.pkg, s.phase.job.version)
    requires !s.phase.pc.Commit? ==> AtWork(world, s) && Stands(world, s.phase.job.entry, s.stands)
    ensures var s' := StepOp(s, s.phase.pc, s.phase.job, ok); Root(world, s'.disk, s'.stands)
  {
    var pc := s.phase.pc;
    if pc.Stage? || pc.Backup? || pc.Activate? {
      RootOpsDirs(world, s, ok);
    } else if pc.Prepare? || pc.LinkAgent? || pc.LinkCursor? {
      RootOpsLinks(world, s, ok);
    } else if pc.Swap? {
      RootSwap(world, s, ok);
    } else {
      RootOpsRest(world, s, ok);
    }
  }

  // ---------------------------------------------------------------- and of how the call began

  /** A step of a running job keeps the disk it began with; and only the swap changes what
      the root stands for. */
  ghost predicate SameCall(s: State, s': State) {
    && s.phase.Running?
    && match s'.phase
       case Running(pc, job) =>
         && job.entry == s.phase.job.entry
         && (pc.Commit? || (!s.phase.pc.Commit? && s'.stands == s.stands))
       case Finished(_, success, _, entry, _) =>
         entry == s.phase.job.entry && (success || (!s.phase.pc.Commit? && s'.stands == s.stands))
       case _ => false
  }

  lemma OpSameCall(s: State, ok: bool)
    requires s.phase.Running?
    ensures SameCall(s, StepOp(s, s.phase.pc, s.phase.job, ok))
  {
    var d, job := s.disk, s.phase.job;
    match s.phase.pc {
      case ReadPrior => ReadPriorSameCall(s);
      case Prepare => if job.prior.Installed? { ReplaceCurrentLeaves(s, job, job.prior.version, ok, MkBin); }
      case Swap => ReplaceCurrentLeaves(s, job, job.version, ok, Commit);
      case CleanAgent => CleanSameCall(s, HasCurrentInside(d, d.agent), ok);
      case CleanCursor => CleanSameCall(s, HasCurrentInside(d, d.cursorAgent), ok);
      case _ =>
    }
  }

  lemma ReadPriorSameCall(s: State)
    requires s.phase.Running? && s.phase.pc.ReadPrior?
    ensures SameCall(s, OpReadPrior(s, s.phase.job))
  {}

  lemma CleanSameCall(s: State, mine: bool, ok: bool)
    requires s.phase.Running? && (s.phase.pc.CleanAgent? || s.phase.pc.CleanCursor?)
    ensures SameCall(s, CleanAgentIf(s, s.phase.job, mine, ok))
    ensures SameCall(s, CleanCursorIf(s, s.phase.job, mine, ok))
  {}

  lemma RemoveSameCall(s: State, keep: Option<set<Path>>)
    requires s.phase.Running?
    ensures SameCall(s, StepRemove(s, s.phase.pc, s.phase.job, keep))
  {}

  lemma EntryStays(world: World, s: State, s': State)
    requires EntryOk(world, s) && SameCall(s, s')
    ensures EntryOk(world, s')
  {}

  lemma StepOpKeeps(world: World, s: State, ok: bool)
    requires WorldOk(world) && Inv(world, s) && s.phase.Running?
    ensures Inv(world, StepOp(s, s.phase.pc, s.phase.job, ok))
  {
    var pc := s.phase.pc;
    WorkingFacts(world, s);
    StandsMeans(world, s.disk, s.stands);
    if pc.RollbackRestore? || pc.CleanAgent? || pc.CleanCursor? || pc.CleanCurrent? {
      PhaseOpsBack(world, s, ok);
    } else {
      PhaseOpsForth(world, s, ok);
    }
    RootOps(world, s, ok);
    OpSameCall(s, ok);
    EntryStays(world, s, StepOp(s, pc, s.phase.job, ok));
  }

  lemma StepRemoveKeeps(world: World, s: State, keep: Option<set<Path>>)
    requires WorldOk(world) && Inv(world, s) && s.phase.Running?
    ensures Inv(world, StepRemove(s, s.phase.pc, s.phase.job, keep))
  {
    RemoveSound(world, s, keep);
    RemoveSameCall(s, keep);
    EntryStays(world, s, StepRemove(s, s.phase.pc, s.phase.job, keep));
  }

  lemma RemoveSound(world: World, s: State, keep: Option<set<Path>>)
    requires WorldOk(world) && Inv(world, s) && s.phase.Running?
    ensures var s' := StepRemove(s, s.phase.pc, s.phase.job, keep); Root(world, s'.disk, s.stands) && PhaseOk(world, s')
    ensures StepRemove(s, s.phase.pc, s.phase.job, keep).stands == s.stands
  {
    WorkingFacts(world, s);
    StandsMeans(world, s.disk, s.stands);
    PhaseRemoves(world, s, keep);
    RootRemoves(world, s, keep);
    RemoveStands(s, keep);
  }

  lemma RemoveStands(s: State, keep: Option<set<Path>>)
    requires s.phase.Running?
    ensures StepRemove(s, s.phase.pc, s.phase.job, keep).stands == s.stands
  {}

  lemma StepKeeps(world: World, s: State, e: Event)
    requires WorldOk(world) && Inv(world, s) && EventOk(world, e)
    ensures Inv(world, Step(s, e))
  {
    match e {
      case Crash =>
      case Begin(v) =>
        if s.phase.Idle? || s.phase.Finished? {
          StandsMeans(world, s.disk, s.stands);
          PhaseBegin(world, s, v);
        }
      case Fetch(pkg) => if s.phase.Fetching? { PhaseFetch(world, s, pkg); }
      case Op(ok) => if s.phase.Running? { StepOpKeeps(world, s, ok); }
      case Remove(keep) => if s.phase.Running? { StepRemoveKeeps(world, s, keep); }
    }
  }
}
