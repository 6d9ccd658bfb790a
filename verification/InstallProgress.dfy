/** What a call achieves when the operating system lets it: from every state the installer can
    be left in, and exactly when. */
module InstallProgress {
  import opened Wrappers
  import opened Paths
  import opened Resolve
  import opened Layout
  import opened InstallMachine
  import opened InstallSafety
  import opened InstallSteps
  import opened InstallRuns

  // ---------------------------------------------------------------- runs piece by piece

  lemma RunOn(s: State, es: seq<Event>, e: Event)
    ensures Run(s, es + [e]) == Step(Run(s, es), e)
  {
    assert (es + [e])[..|es|] == es;
  }

  lemma {:induction false} RunConcat(s: State, a: seq<Event>, b: seq<Event>)
    ensures Run(s, a + b) == Run(Run(s, a), b)
    decreases |b|
  {
    if b == [] {
      assert a + b == a;
    } else {
      var front, last := b[..|b| - 1], b[|b| - 1];
      assert b == front + [last] && a + b == (a + front) + [last];
      RunConcat(s, a, front);
      RunOn(s, a + front, last);
      RunOn(Run(s, a), front, last);
    }
  }

  lemma RunTwo(s: State, e1: Event, s1: State, e2: Event, s2: State)
    requires Step(s, e1) == s1 && Step(s1, e2) == s2
    ensures Run(s, [e1, e2]) == s2
  {
    RunOn(s, [], e1);
    RunOn(s, [e1], e2);
    assert [] + [e1] == [e1] && [e1] + [e2] == [e1, e2];
  }

  lemma RunThree(s: State, e1: Event, s1: State, e2: Event, s2: State, e3: Event, s3: State)
    requires Step(s, e1) == s1 && Step(s1, e2) == s2 && Step(s2, e3) == s3
    ensures Run(s, [e1, e2, e3]) == s3
  {
    RunTwo(s, e1, s1, e2, s2);
    RunOn(s, [e1, e2], e3);
    assert [e1, e2] + [e3] == [e1, e2, e3];
  }

  // ---------------------------------------------------------------- a call in which everything works

  /** The events of a call, in four stretches. */
  function Arrival(p: Package): seq<Event> { [Fetch(Some(p)), Op(true), Op(true)] }
  const STOW: seq<Event> := [Remove(None), Op(true)] + [Remove(None), Op(true), Op(true)]
  const FIRST_LINK: seq<Event> := [Op(true), Op(true)] + [Op(true), Op(true)]
  const FINISH: seq<Event> := [Op(true), Op(true), Remove(None)]

  function AllGood(p: Package): seq<Event> { Arrival(p) + STOW + FIRST_LINK + FINISH }

  function StagedDirs(dirs: map<Name, Tree>, v: Name, p: Package): map<Name, Tree> {
    RemoveDir(dirs, Staged(v), None)[Staged(v) := p.tree]
  }

  function ClearedDirs(dirs: map<Name, Tree>, v: Name, p: Package): map<Name, Tree> {
    RemoveDir(StagedDirs(dirs, v, p), BackupOf(v), None)
  }

  function BackedDirs(dirs: map<Name, Tree>, v: Name, p: Package): map<Name, Tree> {
    var a := ClearedDirs(dirs, v, p);
    if v in a then RenameDir(a, v, BackupOf(v)) else a
  }

  /** The directories once the new tree is in place. */
  function PlacedDirs(dirs: map<Name, Tree>, v: Name, p: Package): map<Name, Tree> {
    var b := BackedDirs(dirs, v, p);
    if Staged(v) in b then RenameDir(b, Staged(v), v) else b
  }

  lemma ClearedMeans(dirs: map<Name, Tree>, v: Name, p: Package)
    requires DirsOk(dirs) && Plain(v) && TameTree(p.tree)
    ensures var a := ClearedDirs(dirs, v, p);
            && DirsOk(a) && Staged(v) in a && a[Staged(v)] == p.tree && BackupOf(v) !in a
            && SameAt(a, dirs, v) && Outside(a, dirs, v)
  {
    SiblingPlain(v);
    var b := StagedDirs(dirs, v, p);
    RemoveDirOk(dirs, Staged(v), None);
    RemoveDirOk(b, BackupOf(v), None);
    assert SameAt(RemoveDir(dirs, Staged(v), None), dirs, v);
    assert SameAt(ClearedDirs(dirs, v, p), b, v) && SameAt(ClearedDirs(dirs, v, p), b, Staged(v));
    forall n | n != v && n != Staged(v) && n != BackupOf(v) ensures SameAt(ClearedDirs(dirs, v, p), dirs, n) {
      assert SameAt(ClearedDirs(dirs, v, p), b, n) && SameAt(RemoveDir(dirs, Staged(v), None), dirs, n);
    }
  }

  lemma BackedMeans(dirs: map<Name, Tree>, v: Name, p: Package)
    requires DirsOk(dirs) && Plain(v) && TameTree(p.tree)
    ensures var b := BackedDirs(dirs, v, p);
            DirsOk(b) && Staged(v) in b && b[Staged(v)] == p.tree && v !in b && Outside(b, dirs, v)
  {
    SiblingPlain(v);
    ClearedMeans(dirs, v, p);
    var a := ClearedDirs(dirs, v, p);
    if v in a {
      RenameDirOk(a, v, BackupOf(v));
      assert SameAt(BackedDirs(dirs, v, p), a, Staged(v));
      OutsideTwice(BackedDirs(dirs, v, p), a, dirs, v);
    }
  }

  lemma PlacedMeans(dirs: map<Name, Tree>, v: Name, p: Package)
    requires DirsOk(dirs) && Plain(v) && TameTree(p.tree)
    ensures var c := PlacedDirs(dirs, v, p);
            DirsOk(c) && v in c && c[v] == p.tree && Staged(v) !in c && Outside(c, dirs, v)
  {
    SiblingPlain(v);
    BackedMeans(dirs, v, p);
    RenameDirOk(BackedDirs(dirs, v, p), Staged(v), v);
    OutsideTwice(PlacedDirs(dirs, v, p), BackedDirs(dirs, v, p), dirs, v);
  }

  lemma Clears(s: State, job: Job)
    ensures s.phase == Running(ClearStaged, job) ==>
              Step(s, Remove(None)) == At(Removed(s, Staged(job.version), None), Stage, job)
    ensures s.phase == Running(ClearBackup, job) ==>
              Step(s, Remove(None)) == At(Removed(s, BackupOf(job.version), None), Backup, job)
  {}

  lemma Stages(s: State, job: Job)
    requires s.phase == Running(Stage, job) && Staged(job.version) !in s.disk.dirs
    ensures Step(s, Op(true)) == At(Dirs(s, s.disk.dirs[Staged(job.version) := job.pkg.tree]), ClearBackup, job)
  {}

  lemma BacksUp(s: State, job: Job)
    requires s.phase == Running(Backup, job) && BackupOf(job.version) !in s.disk.dirs
    ensures var v, dirs := job.version, s.disk.dirs;
            var b := if v in dirs then RenameDir(dirs, v, BackupOf(v)) else dirs;
            Step(s, Op(true)) == At(Dirs(s, b), Activate, job.(existed := v in dirs))
  {}

  lemma Activates(s: State, job: Job)
    requires s.phase == Running(Activate, job) && job.version !in s.disk.dirs && Staged(job.version) in s.disk.dirs
    ensures Step(s, Op(true)) == At(Dirs(s, RenameDir(s.disk.dirs, Staged(job.version), job.version)), Validate, job)
  {}

  lemma StowStages(s: State, job: Job)
    requires s.phase == Running(ClearStaged, job)
    ensures Run(s, [Remove(None), Op(true)]) ==
            At(Dirs(s, StagedDirs(s.disk.dirs, job.version, job.pkg)), ClearBackup, job)
  {
    var s1 := At(Removed(s, Staged(job.version), None), Stage, job);
    Clears(s, job);
    Stages(s1, job);
    RunTwo(s, Remove(None), s1, Op(true), At(Dirs(s, StagedDirs(s.disk.dirs, job.version, job.pkg)), ClearBackup, job));
  }

  lemma StowPlaces(s: State, dirs: map<Name, Tree>, job: Job)
    requires s.phase == Running(ClearBackup, job) && DirsOk(dirs) && Plain(job.version) && TameTree(job.pkg.tree)
    requires s.disk.dirs == StagedDirs(dirs, job.version, job.pkg)
    ensures Run(s, [Remove(None), Op(true), Op(true)]) ==
            At(Dirs(s, PlacedDirs(dirs, job.version, job.pkg)), Validate,
               job.(existed := job.version in ClearedDirs(dirs, job.version, job.pkg)))
  {
    var v, p := job.version, job.pkg;
    var job' := job.(existed := v in ClearedDirs(dirs, v, p));
    var s1 := At(Dirs(s, ClearedDirs(dirs, v, p)), Backup, job);
    var s2 := At(Dirs(s, BackedDirs(dirs, v, p)), Activate, job');
    var s3 := At(Dirs(s, PlacedDirs(dirs, v, p)), Validate, job');
    ClearedMeans(dirs, v, p);
    BackedMeans(dirs, v, p);
    Clears(s, job);
    BacksUp(s1, job);
    Activates(s2, job');
    RunThree(s, Remove(None), s1, Op(true), s2, Op(true), s3);
  }

  lemma Stows(s: State, job: Job)
    requires s.phase == Running(ClearStaged, job) && DirsOk(s.disk.dirs) && Plain(job.version) && TameTree(job.pkg.tree)
    ensures var existed := job.version in ClearedDirs(s.disk.dirs, job.version, job.pkg);
            Run(s, STOW) == At(Dirs(s, PlacedDirs(s.disk.dirs, job.version, job.pkg)), Validate,
                job.(existed := existed))
  {
    StowStages(s, job);
    StowPlaces(At(Dirs(s, StagedDirs(s.disk.dirs, job.version, job.pkg)), ClearBackup, job), s.disk.dirs, job);
    RunConcat(s, [Remove(None), Op(true)], [Remove(None), Op(true), Op(true)]);
  }

  /** Validation and the preparation of `current`. */
  lemma Prepares(s: State, job: Job)
    requires s.phase == Running(Validate, job) && ValidInPlace(s.disk.dirs, job.version, job.pkg.rel)
    requires job.prior.Installed? ==> job.prior.version in s.disk.dirs
    ensures var cur := if job.prior.Installed? then Some(job.prior.version) else s.disk.current;
            Run(s, [Op(true), Op(true)]) == At(s.(disk := s.disk.(current := cur)), MkBin, job)
  {
    var cur := if job.prior.Installed? then Some(job.prior.version) else s.disk.current;
    RunTwo(s, Op(true), At(s, Prepare, job), Op(true), At(s.(disk := s.disk.(current := cur)), MkBin, job));
  }

  lemma LinkSteps(s: State, job: Job)
    ensures s.phase == Running(MkBin, job) ==> Step(s, Op(true)) == At(s, LinkAgent, job)
    ensures s.phase == Running(LinkAgent, job) ==> Step(s, Op(true)) == OpLinkAgent(s, job, true)
    ensures s.phase == Running(LinkCursor, job) ==> Step(s, Op(true)) == OpLinkCursor(s, job, true)
  {}

  lemma LinksFirst(s: State, job: Job)
    requires s.phase == Running(MkBin, job)
    ensures Run(s, [Op(true), Op(true)]) == At(s.(disk := s.disk.(agent := ViaCurrent(job.pkg.rel))), LinkCursor, job)
  {
    var s1 := At(s, LinkAgent, job);
    LinkSteps(s, job);
    LinkSteps(s1, job);
    RunTwo(s, Op(true), s1, Op(true), OpLinkAgent(s1, job, true));
  }

  lemma PlacesFirstLink(s: State, job: Job)
    requires s.phase == Running(Validate, job) && ValidInPlace(s.disk.dirs, job.version, job.pkg.rel)
    requires job.prior.Installed? ==> job.prior.version in s.disk.dirs
    ensures var cur := if job.prior.Installed? then Some(job.prior.version) else s.disk.current;
            Run(s, FIRST_LINK) ==
            At(s.(disk := s.disk.(current := cur, agent := ViaCurrent(job.pkg.rel))), LinkCursor, job)
  {
    var cur := if job.prior.Installed? then Some(job.prior.version) else s.disk.current;
    Prepares(s, job);
    LinksFirst(At(s.(disk := s.disk.(current := cur)), MkBin, job), job);
    RunConcat(s, [Op(true), Op(true)], [Op(true), Op(true)]);
  }

  lemma Swaps(s: State, job: Job)
    requires s.phase == Running(Swap, job) && job.version in s.disk.dirs
    ensures Step(s, Op(true)) == At(s.(disk := s.disk.(current := Some(job.version))), Commit, job)
                                 .(stands := Installed(job.version, RealBin(job.pkg)))
  {}

  lemma Finishes(s: State, job: Job)
    requires s.phase == Running(LinkCursor, job) && job.version in s.disk.dirs
    ensures var s' := Run(s, FINISH);
            && s'.phase.Finished? && s'.phase.success && s'.stands == Installed(job.version, RealBin(job.pkg))
            && s'.disk == s.disk.(dirs := RemoveDir(s.disk.dirs, BackupOf(job.version), None),
                                  current := Some(job.version), cursorAgent := ViaCurrent(job.pkg.rel))
  {
    var s1 := At(s.(disk := s.disk.(cursorAgent := ViaCurrent(job.pkg.rel))), Swap, job);
    var s2 := At(s1.(disk := s1.disk.(current := Some(job.version))), Commit, job)
              .(stands := Installed(job.version, RealBin(job.pkg)));
    LinkSteps(s, job);
    Swaps(s1, job);
    RunThree(s, Op(true), s1, Op(true), s2, Remove(None), RemoveBackup(s2, job, None));
  }

  /** The start of a call for another version than the installed one. */
  lemma Arrives(s: State, v: Name, p: Package)
    requires s.phase == Fetching(v, s.disk) && PackageOk(p, v) && Inspect(s.disk) == Ok(s.stands)
    ensures Run(s, Arrival(p)) ==
            if s.stands.Installed? && s.stands.rel != p.rel
            then Fail(s, Job(v, p, NotInstalled, false, s.disk, true))
            else At(s, ClearStaged, Job(v, p, s.stands, false, s.disk, true))
  {
    var job := Job(v, p, NotInstalled, false, s.disk, true);
    RunThree(s, Fetch(Some(p)), At(s, MkVersions, job), Op(true), At(s, ReadPrior, job),
             Op(true), OpReadPrior(At(s, ReadPrior, job), job));
  }

  /** A root that holds exactly one installation of the package: its tree under its name,
      nothing staged or put aside, `current` on it and both bin links through `current`. */
  ghost predicate Complete(d: Disk, found: Disk, v: Name, p: Package) {
    && v in d.dirs && d.dirs[v] == p.tree && Staged(v) !in d.dirs && BackupOf(v) !in d.dirs
    && Outside(d.dirs, found.dirs, v)
    && d.current == Some(v) && d.agent == d.cursorAgent == ViaCurrent(p.rel)
  }

  /** From the cleared staging directory to the end, when everything works. */
  lemma Completes(s: State, job: Job)
    requires s.phase == Running(ClearStaged, job) && DirsOk(s.disk.dirs) && Plain(job.version)
    requires PackageOk(job.pkg, job.version)
    requires job.prior.Installed? ==>
               var u, v := job.prior.version, job.version;
               u in s.disk.dirs && u != v && u != Staged(v) && u != BackupOf(v)
    ensures var s' := Run(Run(Run(s, STOW), FIRST_LINK), FINISH);
            && s'.phase.Finished? && s'.phase.success && s'.stands == Installed(job.version, RealBin(job.pkg))
            && Complete(s'.disk, s.disk, job.version, job.pkg)
  {
    var d, v, p := s.disk, job.version, job.pkg;
    var placed := PlacedDirs(d.dirs, v, p);
    var existed := v in ClearedDirs(d.dirs, v, p);
    var job' := job.(existed := existed);
    Stows(s, job);
    PlacedMeans(d.dirs, v, p);
    if job.prior.Installed? { assert SameAt(placed, d.dirs, job.prior.version); }
    var s1 := At(Dirs(s, placed), Validate, job');
    PlacesFirstLink(s1, job');
    var cur := if job.prior.Installed? then Some(job.prior.version) else d.current;
    var s2 := At(s1.(disk := s1.disk.(current := cur, agent := ViaCurrent(p.rel))), LinkCursor, job');
    Finishes(s2, job');
    SiblingPlain(v);
    RemoveOutside(placed, BackupOf(v), None);
    var dirs' := RemoveDir(placed, BackupOf(v), None);
    assert SameAt(dirs', placed, v) && SameAt(dirs', placed, Staged(v));
    OutsideTwice(dirs', placed, d.dirs, v);
  }

  lemma AllGoodInPieces(s: State, p: Package)
    ensures Run(s, AllGood(p)) == Run(Run(Run(Run(s, Arrival(p)), STOW), FIRST_LINK), FINISH)
  {
    RunConcat(s, Arrival(p), STOW);
    RunConcat(s, Arrival(p) + STOW, FIRST_LINK);
    RunConcat(s, Arrival(p) + STOW + FIRST_LINK, FINISH);
  }

  /** Once finished, further outcomes change nothing. */
  lemma AllGoodAfterEnd(s: State, p: Package)
    requires s.phase.Finished?
    ensures Run(s, AllGood(p)) == s && Run(Run(Run(s, STOW), FIRST_LINK), FINISH) == s
  {
    FinishedStays(s, Arrival(p));
    FinishedStays(s, STOW);
    FinishedStays(s, FIRST_LINK);
    FinishedStays(s, FINISH);
    AllGoodInPieces(s, p);
  }

  /** What the installed version allows: anything when nothing is installed, the version
      itself, or a package whose binary has the installed path. */
  ghost predicate Admits(i: Install, v: Name, p: Package) {
    i.Installed? ==> i.version == v || i.rel == p.rel
  }

  /** A call for another version than the installed one. */
  lemma FetchedSucceedsExactly(world: World, s: State, v: Name, p: Package)
    requires WorldOk(world) && Root(world, s.disk, s.stands) && v in world.names && PackageOk(p, v)
    requires s.phase == Fetching(v, s.disk) && (s.stands.Installed? ==> s.stands.version != v)
    ensures var s' := Run(s, AllGood(p));
            && s'.phase.Finished? && (s'.phase.success <==> Admits(s.stands, v, p))
            && (s'.phase.success ==> s'.stands == Installed(v, RealBin(p)) && Complete(s'.disk, s.disk, v, p))
            && (!s'.phase.success ==> s'.disk == s.disk)
  {
    StandsMeans(world, s.disk, s.stands);
    if Admits(s.stands, v, p) {
      ApartFromOthers(world, v, s.stands);
      AdmittedSucceeds(s, v, p);
    } else {
      Arrives(s, v, p);
      AllGoodInPieces(s, p);
      AllGoodAfterEnd(Fail(s, Job(v, p, NotInstalled, false, s.disk, true)), p);
    }
  }

  lemma ApartFromOthers(world: World, v: Name, i: Install)
    requires NamesOk(world.names) && v in world.names && (i.Installed? ==> i.version in world.names)
    ensures i.Installed? ==> i.version != Staged(v) && i.version != BackupOf(v)
  {}

  lemma AdmittedSucceeds(s: State, v: Name, p: Package)
    requires s.phase == Fetching(v, s.disk) && PackageOk(p, v) && Inspect(s.disk) == Ok(s.stands)
    requires DirsOk(s.disk.dirs) && Plain(v)
    requires s.stands.Installed? ==>
               var u := s.stands.version;
               u in s.disk.dirs && u != v && u != Staged(v) && u != BackupOf(v) && s.stands.rel == p.rel
    ensures var s' := Run(s, AllGood(p));
            && s'.phase.Finished? && s'.phase.success
            && s'.stands == Installed(v, RealBin(p)) && Complete(s'.disk, s.disk, v, p)
  {
    var job := Job(v, p, s.stands, false, s.disk, true);
    Arrives(s, v, p);
    AllGoodInPieces(s, p);
    Completes(At(s, ClearStaged, job), job);
  }

  /** From every state in which a call, a failure or a crash can leave the root, a call with a
      verified package in which every operation succeeds ends in success if and only if
      nothing is installed, the version is the active one, or the installed binary has the
      package's path. Success makes the root complete, whatever earlier calls left behind;
      refusal leaves it alone. */
  lemma RecoveryExactly(world: World, d: Disk, before: seq<Event>, v: Name, p: Package)
    requires Startable(world, d) && EventsOk(world, before) && v in world.asked && PackageOk(p, v)
    requires var s0 := Run(StartOf(d), before); s0.phase.Idle? || s0.phase.Finished?
    ensures var s0 := Run(StartOf(d), before);
            var s := Run(Step(s0, Begin(v)), AllGood(p));
            && s.phase.Finished? && (s.phase.success <==> Admits(s0.stands, v, p))
            && (s.phase.success ==>
                  if s0.stands.Installed? && s0.stands.version == v then s.disk == s0.disk
                  else s.stands == Installed(v, RealBin(p)) && Complete(s.disk, s0.disk, v, p))
            && (!s.phase.success ==> s.disk == s0.disk)
  {
    var s0 := Run(StartOf(d), before);
    Reachable(world, d, before);
    StandsMeans(world, s0.disk, s0.stands);
    var s1 := Step(s0, Begin(v));
    if s0.stands.Installed? && s0.stands.version == v {
      AllGoodAfterEnd(s1, p);
    } else {
      FetchedSucceedsExactly(world, s1, v, p);
    }
  }
}
