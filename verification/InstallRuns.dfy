/** The installer's promises over whole runs, and exactly where they end. */
module InstallRuns {
  import opened Wrappers
  import opened Paths
  import opened Resolve
  import opened Layout
  import opened InstallMachine
  import opened InstallSafety
  import opened InstallSteps

  // ---------------------------------------------------------------- reachable states

  /** A root a run may start from: installed at some version, whatever mix of direct and
      indirect links says so; or not installed, and such that no package that may come
      brings a link to life too early. The empty root is one in every world. */
  ghost predicate Startable(world: World, d: Disk) {
    && WorldOk(world) && Wf(d) && Inspect(d).Ok?
    && match Inspect(d).value
       case Installed(v, _) => v in world.names
       case NotInstalled => LinksNamed(world, d) && Calm(world, d)
  }

  /** The world in which some versions are asked for and some packages delivered. */
  ghost function FeedWorld(names: set<Name>, asked: set<Name>, feed: iset<Package>): World {
    World(names, asked, iset v: Name, p: Package | v in asked && p in feed && PackageOk(p, v) :: (v, p))
  }

  /** Every name may be asked for, and any package from an accepted archive may come. */
  ghost function OpenWorld(names: set<Name>): World { FeedWorld(names, names, iset p: Package | Genuine(p)) }

  lemma FeedWorldIsOk(names: set<Name>, asked: set<Name>, feed: iset<Package>)
    requires NamesOk(names) && asked <= names
    ensures WorldOk(FeedWorld(names, asked, feed))
    ensures forall p :: p in feed && Genuine(p) ==> EventOk(FeedWorld(names, asked, feed), Fetch(Some(p)))
  {}

  function StartOf(d: Disk): State
    requires Inspect(d).Ok?
  {
    State(d, Idle, Inspect(d).value)
  }

  ghost predicate EventsOk(world: World, es: seq<Event>) { forall i :: 0 <= i < |es| ==> EventOk(world, es[i]) }

  lemma {:induction false} RunKeeps(world: World, s: State, es: seq<Event>)
    requires WorldOk(world) && Inv(world, s) && EventsOk(world, es)
    ensures Inv(world, Run(s, es))
    decreases |es|
  {
    if es != [] {
      var front := es[..|es| - 1];
      RunKeeps(world, s, front);
      StepKeeps(world, Run(s, front), es[|es| - 1]);
    }
  }

  lemma Reachable(world: World, d: Disk, es: seq<Event>)
    requires Startable(world, d) && EventsOk(world, es)
    ensures Inv(world, Run(StartOf(d), es))
  {
    InspectMeans(d);
    if Inspect(d).value.Installed? { InspectedStands(d); }
    RunKeeps(world, StartOf(d), es);
  }

  lemma EmptyRootIsStartable(world: World, home: Path)
    requires WorldOk(world) && AllPlain(home)
    ensures var d := Disk(home, map[], None, Absent, Absent); Startable(world, d) && Inspect(d) == Ok(NotInstalled)
  {
    InspectMeans(Disk(home, map[], None, Absent, Absent));
  }

  // ---------------------------------------------------------------- one linearisation point

  /** The swap of `current` in the last step of a call. */
  ghost predicate SwapsTo(s: State, e: Event, s': State) {
    && s.phase.Running? && s.phase.pc.Swap? && e == Op(true)
    && s'.stands == Installed(s.phase.job.version, RealBin(s.phase.job.pkg))
    && s'.disk == s.disk.(current := Some(s.phase.job.version))
    && s'.phase == Running(Commit, s.phase.job)
  }

  ghost predicate SameFiles(s: State, s': State) {
    && s'.stands == s.stands
    && (s.stands.Installed? ==> SameAt(s'.disk.dirs, s.disk.dirs, s.stands.version))
  }

  /** The disk at the start of the call and the version asked for. */
  function EntryOf(p: Phase): Option<(Name, Disk)> {
    match p
    case Idle => None
    case Fetching(v, entry) => Some((v, entry))
    case Running(_, job) => Some((job.version, job.entry))
    case Finished(v, _, _, entry, _) => Some((v, entry))
  }

  /** What a step of a running job leaves alone. */
  ghost predicate JobFrame(s: State, s': State) {
    s.phase.Running? && EntryOf(s'.phase) == EntryOf(s.phase) && Outside(s'.disk.dirs, s.disk.dirs, s.phase.job.version)
  }

  lemma StepOpFrame(s: State, ok: bool)
    requires s.phase.Running?
    ensures JobFrame(s, StepOp(s, s.phase.pc, s.phase.job, ok))
    ensures StepOp(s, s.phase.pc, s.phase.job, ok).stands == s.stands ||
            SwapsTo(s, Op(ok), StepOp(s, s.phase.pc, s.phase.job, ok))
  {
    var d, v := s.disk.dirs, s.phase.job.version;
    match s.phase.pc {
      case Stage =>
      case Backup => if v in d { RenameOutside(d, v, BackupOf(v)); }
      case Activate => if Staged(v) in d { RenameOutside(d, Staged(v), v); }
      case RollbackRestore => if BackupOf(v) in d { RenameOutside(d, BackupOf(v), v); }
      case _ => OtherOpsFrame(s, ok);
    }
  }

  lemma OtherOpsFrame(s: State, ok: bool)
    requires s.phase.Running?
    requires !s.phase.pc.Stage? && !s.phase.pc.Backup? && !s.phase.pc.Activate? && !s.phase.pc.RollbackRestore?
    ensures var s' := StepOp(s, s.phase.pc, s.phase.job, ok);
            && s'.disk.dirs == s.disk.dirs && EntryOf(s'.phase) == EntryOf(s.phase)
            && (s'.stands == s.stands || SwapsTo(s, Op(ok), s'))
  {
    match s.phase.pc {
      case Swap =>
      case _ =>
    }
  }

  lemma StepRemoveFrame(s: State, keep: Option<set<Path>>)
    requires s.phase.Running?
    ensures JobFrame(s, StepRemove(s, s.phase.pc, s.phase.job, keep))
    ensures StepRemove(s, s.phase.pc, s.phase.job, keep).stands == s.stands
    ensures s.phase.pc.Commit? && Plain(s.phase.job.version) ==>
              SameAt(StepRemove(s, s.phase.pc, s.phase.job, keep).disk.dirs, s.disk.dirs, s.phase.job.version)
  {
    var d, v := s.disk.dirs, s.phase.job.version;
    if Plain(v) { SiblingPlain(v); }
    RemoveOutside(d, v, keep);
    RemoveOutside(d, Staged(v), keep);
    RemoveOutside(d, BackupOf(v), keep);
    match s.phase.pc {
      case ClearStaged =>
      case ClearBackup =>
      case DropStaged =>
      case DropActivated =>
      case Commit =>
      case RollbackRemove =>
      case _ =>
    }
  }

  /** Where the installed version is while a job runs. */
  ghost predicate Apart(s: State) {
    s.phase.Running? && Plain(s.phase.job.version) &&
    (s.stands.Installed? ==>
       var v, w := s.phase.job.version, s.stands.version;
       if s.phase.pc.Commit? then w == v else w != v && w != Staged(v) && w != BackupOf(v))
  }

  lemma RunningIsApart(world: World, s: State)
    requires WorldOk(world) && Inv(world, s) && s.phase.Running?
    ensures Apart(s)
  {}

  lemma OneOp(s: State, ok: bool)
    requires Apart(s)
    ensures SameFiles(s, StepOp(s, s.phase.pc, s.phase.job, ok)) ||
            SwapsTo(s, Op(ok), StepOp(s, s.phase.pc, s.phase.job, ok))
  {
    StepOpFrame(s, ok);
    if s.phase.pc.Commit? { OtherOpsFrame(s, ok); }
  }

  lemma OneRemove(s: State, keep: Option<set<Path>>)
    requires Apart(s)
    ensures SameFiles(s, StepRemove(s, s.phase.pc, s.phase.job, keep))
  {
    StepRemoveFrame(s, keep);
  }

  /** Every step but that swap leaves what the root stands for, and its files, alone. */
  lemma OneStep(world: World, s: State, e: Event)
    requires WorldOk(world) && Inv(world, s)
    ensures SameFiles(s, Step(s, e)) || SwapsTo(s, e, Step(s, e))
  {
    if s.phase.Running? {
      RunningIsApart(world, s);
      match e {
        case Op(ok) => OneOp(s, ok);
        case Remove(keep) => OneRemove(s, keep);
        case _ =>
      }
    }
  }

  /** In every reachable state, inspection changes its answer in that one step only; and
      whenever it reports a version, both bin links resolve to the same file of it. */
  lemma UpgradeIsAtomic(world: World, d: Disk, es: seq<Event>, e: Event)
    requires Startable(world, d) && EventsOk(world, es) && EventOk(world, e)
    ensures var s := Run(StartOf(d), es);
            var s' := Step(s, e);
            && Inspect(s.disk) == Ok(s.stands) && Inspect(s'.disk) == Ok(s'.stands)
            && (Inspect(s'.disk) == Inspect(s.disk) || SwapsTo(s, e, s'))
            && (s.stands.Installed? ==> BothLead(s.disk, s.stands.version, s.stands.rel))
  {
    var s := Run(StartOf(d), es);
    Reachable(world, d, es);
    OneStep(world, s, e);
    StepKeeps(world, s, e);
    StandsMeans(world, s.disk, s.stands);
    StandsMeans(world, Step(s, e).disk, Step(s, e).stands);
    if s.stands.Installed? { InstalledLeads(s.disk, s.stands.version, s.stands.rel); }
  }

  ghost predicate BothLead(d: Disk, v: Name, q: Path) {
    && EvalSymlinks(DiskView(d), d.Bin() + ["agent"]) == Found(d.VersionDir(v) + q)
    && EvalSymlinks(DiskView(d), d.Bin() + ["cursor-agent"]) == Found(d.VersionDir(v) + q)
  }

  lemma InstalledLeads(d: Disk, v: Name, q: Path)
    requires Wf(d) && InstalledAt(d, v, q)
    ensures BothLead(d, v, q)
  {
    LinkInLeads(d, d.agent, v, q);
    LinkInLeads(d, d.cursorAgent, v, q);
    BinLinkResolves(d, "agent", d.agent);
    BinLinkResolves(d, "cursor-agent", d.cursorAgent);
  }

  // ---------------------------------------------------------------- whole-run safety

  /** The file the links lead to prints the version it is installed as. */
  ghost predicate Answers(d: Disk, i: Install) {
    match i
    case NotInstalled => true
    case Installed(v, q) =>
      v in d.dirs && q in d.dirs[v] && d.dirs[v][q].File? && Contains(d.dirs[v][q].banner, v)
  }

  lemma StepAnswers(world: World, s: State, e: Event)
    requires WorldOk(world) && Inv(world, s) && Answers(s.disk, s.stands)
    ensures Answers(Step(s, e).disk, Step(s, e).stands)
  {
    OneStep(world, s, e);
  }

  lemma {:induction false} RunAnswers(world: World, s: State, es: seq<Event>)
    requires WorldOk(world) && Inv(world, s) && EventsOk(world, es) && Answers(s.disk, s.stands)
    ensures Answers(Run(s, es).disk, Run(s, es).stands)
    decreases |es|
  {
    if es != [] {
      var front := es[..|es| - 1];
      RunAnswers(world, s, front);
      RunKeeps(world, s, front);
      StepAnswers(world, Run(s, front), es[|es| - 1]);
    }
  }

  /** From the empty root, after any calls, failures and crashes, inspection never reports
      incomplete, mixed or escaping links: nothing is installed, or one version whose
      binary answered with that version. */
  lemma WholeRunSafety(names: set<Name>, home: Path, es: seq<Event>)
    requires NamesOk(names) && AllPlain(home) && EventsOk(OpenWorld(names), es)
    ensures var d := Disk(home, map[], None, Absent, Absent);
            && Startable(OpenWorld(names), d)
            && var s := Run(StartOf(d), es);
               Inspect(s.disk) == Ok(s.stands) && Answers(s.disk, s.stands)
  {
    var world := OpenWorld(names);
    FeedWorldIsOk(names, names, iset p: Package | Genuine(p));
    EmptyRootIsStartable(world, home);
    RunsAnswer(world, Disk(home, map[], None, Absent, Absent), es);
  }

  /** The same from every root a run may start from. */
  lemma RunsAnswer(world: World, d: Disk, es: seq<Event>)
    requires Startable(world, d) && EventsOk(world, es) && Answers(d, Inspect(d).value)
    ensures var s := Run(StartOf(d), es); Inspect(s.disk) == Ok(s.stands) && Answers(s.disk, s.stands)
  {
    var s := Run(StartOf(d), es);
    Reachable(world, d, es);
    Reachable(world, d, []);
    RunAnswers(world, StartOf(d), es);
    StandsMeans(world, s.disk, s.stands);
  }

  // ---------------------------------------------------------------- one call

  /** What happens inside one call: no crash, no other call. */
  ghost predicate CallEvents(es: seq<Event>) { forall i :: 0 <= i < |es| ==> !es[i].Begin? && !es[i].Crash? }

  lemma StepKeepsEntry(s: State, e: Event)
    requires !e.Begin? && !e.Crash?
    ensures EntryOf(Step(s, e).phase) == EntryOf(s.phase)
  {
    if s.phase.Running? {
      match e {
        case Op(ok) => StepOpFrame(s, ok);
        case Remove(keep) => StepRemoveFrame(s, keep);
        case _ =>
      }
    }
  }

  lemma {:induction false} CallKeepsEntry(s: State, es: seq<Event>)
    requires CallEvents(es)
    ensures EntryOf(Run(s, es).phase) == EntryOf(s.phase)
    decreases |es|
  {
    if es != [] {
      CallKeepsEntry(s, es[..|es| - 1]);
      StepKeepsEntry(Run(s, es[..|es| - 1]), es[|es| - 1]);
    }
  }

  /** What a call that returned promises about the root it found. On success the version's
      directory holds the package, nothing stays staged, and the backup is gone if its
      removal worked. On failure the installed version and binary are as before; when the
      undo steps did what they were asked the version's directory is too, and a first
      install leaves no link behind. */
  ghost predicate Kept(found: Disk, d: Disk, v: Name, f: Phase)
    requires f.Finished?
  {
    && f.version == v && Outside(d.dirs, found.dirs, v)
    && (f.success && f.fetched.Some? ==> Inspect(d) == Ok(Installed(v, RealBin(f.fetched.value))))
    && (f.success && f.fetched.Some? ==> TreeIn(d, v, f.fetched.value.tree) && Staged(v) !in d.dirs)
    && (f.success && f.fetched.Some? && f.tidy ==> BackupOf(v) !in d.dirs)
    && (f.success && f.fetched.None? ==>
        d == found && Inspect(d).Ok? && Inspect(d).value.Installed? && Inspect(d).value.version == v)
    && (!f.success ==> Inspect(d) == Inspect(found))
    && (!f.success && f.tidy ==> SameAt(d.dirs, found.dirs, v))
    && (!f.success && f.tidy && NoLinks(found) ==> NoLinks(d))
  }

  lemma CallKeeps(world: World, s0: State, v: Name, es: seq<Event>)
    requires WorldOk(world) && Inv(world, s0) && (s0.phase.Idle? || s0.phase.Finished?)
    requires v in world.asked && EventsOk(world, es) && CallEvents(es)
    ensures var s := Run(Step(s0, Begin(v)), es);
            Inv(world, s) && (s.phase.Finished? ==> Kept(s0.disk, s.disk, v, s.phase))
  {
    var s1 := Step(s0, Begin(v));
    StepKeeps(world, s0, Begin(v));
    BeginEntry(s0, v);
    CallKeepsEntry(s1, es);
    RunKeeps(world, s1, es);
    var s := Run(s1, es);
    if s.phase.Finished? { FinishedMeans(world, s, s0.disk); }
  }

  /** How a call that returned left the root, whatever happened before it. */
  lemma CallOutcome(world: World, d: Disk, before: seq<Event>, v: Name, es: seq<Event>)
    requires Startable(world, d) && EventsOk(world, before) && v in world.asked && EventsOk(world, es) && CallEvents(es)
    requires var s0 := Run(StartOf(d), before); s0.phase.Idle? || s0.phase.Finished?
    requires Run(Step(Run(StartOf(d), before), Begin(v)), es).phase.Finished?
    ensures var s0 := Run(StartOf(d), before);
            var s := Run(Step(s0, Begin(v)), es);
            Kept(s0.disk, s.disk, v, s.phase)
  {
    Reachable(world, d, before);
    CallKeeps(world, Run(StartOf(d), before), v, es);
  }

  lemma BeginEntry(s: State, v: Name)
    requires s.phase.Idle? || s.phase.Finished?
    ensures EntryOf(Step(s, Begin(v)).phase) == Some((v, s.disk))
  {}

  lemma FinishedMeans(world: World, s: State, entry: Disk)
    requires s.phase.Finished? && s.phase.entry == entry && Inv(world, s)
    ensures Inspect(s.disk) == Ok(s.stands)
    ensures !s.phase.success ==> Inspect(entry) == Inspect(s.disk)
  {
    StandsMeans(world, s.disk, s.stands);
    if !s.phase.success { StandsMeans(world, entry, s.stands); }
  }

  /** While a version stays active, every later call for it returns at once: no package is
      fetched and nothing changes. */
  lemma ReinstallDoesNothing(world: World, d: Disk, before: seq<Event>, v: Name, es: seq<Event>)
    requires Startable(world, d) && EventsOk(world, before) && CallEvents(es)
    requires var s0 := Run(StartOf(d), before);
             && (s0.phase.Idle? || s0.phase.Finished?) && s0.stands.Installed? && s0.stands.version == v
    ensures var s0 := Run(StartOf(d), before);
            Run(Step(s0, Begin(v)), es) == s0.(phase := Finished(v, true, None, s0.disk, true))
  {
    var s0 := Run(StartOf(d), before);
    Reachable(world, d, before);
    StandsMeans(world, s0.disk, s0.stands);
    FinishedStays(Step(s0, Begin(v)), es);
  }

  lemma {:induction false} FinishedStays(s: State, es: seq<Event>)
    requires s.phase.Finished? && CallEvents(es)
    ensures Run(s, es) == s
    decreases |es|
  {
    if es != [] { FinishedStays(s, es[..|es| - 1]); }
  }
}
