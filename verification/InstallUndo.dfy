/** What a call that fails leaves behind: a failed operation changes nothing and dooms the call,
    and a rollback whose own steps work puts back what was there. */
module InstallUndo {
  import opened Wrappers
  import opened Paths
  import opened Resolve
  import opened Layout
  import opened InstallMachine
  import opened InstallSafety
  import opened InstallSteps
  import opened InstallRuns
  import opened InstallProgress

  // ---------------------------------------------------------------- failed operations

  /** The call has failed, or is on the way out. */
  ghost predicate Doomed(s: State) {
    match s.phase
    case Finished(_, success, _, _, _) => !success
    case Running(pc, _) =>
      pc in {DropStaged, DropActivated, RollbackRemove, RollbackRestore, CleanAgent, CleanCursor, CleanCurrent}
    case _ => false
  }

  /** The operations that a call cannot do without. */
  ghost predicate Essential(s: State) {
    s.phase.Running? &&
    match s.phase.pc
    case Backup => s.phase.job.version in s.disk.dirs
    case Prepare => s.phase.job.prior.Installed?
    case pc => pc in {MkVersions, Stage, Activate, MkBin, LinkAgent, LinkCursor, Swap}
  }

  lemma CleanFails(s: State, job: Job, mine: bool)
    ensures CleanAgentIf(s, job, mine, false).disk == s.disk && CleanCursorIf(s, job, mine, false).disk == s.disk
  {}

  lemma ReadPriorKeepsDisk(s: State, job: Job)
    ensures OpReadPrior(s, job).disk == s.disk
  {}

  /** An operation that fails changes nothing on the disk. */
  lemma FailedOpChangesNothing(s: State)
    ensures Step(s, Op(false)).disk == s.disk
  {
    if s.phase.Running? {
      var d, job := s.disk, s.phase.job;
      match s.phase.pc {
        case ReadPrior => ReadPriorKeepsDisk(s, job);
        case CleanAgent => CleanFails(s, job, HasCurrentInside(d, d.agent));
        case CleanCursor => CleanFails(s, job, HasCurrentInside(d, d.cursorAgent));
        case _ =>
      }
    }
  }

  /** And the call fails with it. */
  lemma FailedOpDooms(s: State)
    requires Essential(s)
    ensures Doomed(Step(s, Op(false)))
  {}

  lemma CleanStaysDoomed(s: State, job: Job, mine: bool, ok: bool)
    ensures Doomed(CleanAgentIf(s, job, mine, ok)) && Doomed(CleanCursorIf(s, job, mine, ok))
  {}

  lemma DoomedStep(s: State, e: Event)
    requires Doomed(s) && !e.Begin? && !e.Crash?
    ensures Doomed(Step(s, e))
  {
    if s.phase.Running? && e.Op? {
      var d, job := s.disk, s.phase.job;
      match s.phase.pc {
        case CleanAgent => CleanStaysDoomed(s, job, HasCurrentInside(d, d.agent), e.ok);
        case CleanCursor => CleanStaysDoomed(s, job, HasCurrentInside(d, d.cursorAgent), e.ok);
        case _ =>
      }
    }
  }

  /** Once an essential operation has failed, the call never succeeds. */
  lemma {:induction false} DoomedCallFails(s: State, es: seq<Event>)
    requires Doomed(s) && CallEvents(es)
    ensures Doomed(Run(s, es))
    decreases |es|
  {
    if es != [] {
      DoomedCallFails(s, es[..|es| - 1]);
      DoomedStep(Run(s, es[..|es| - 1]), es[|es| - 1]);
    }
  }

  // ---------------------------------------------------------------- the rollback

  /** A link whose text has "/current/" in it: any link through `current`, and a direct one with
      a directory of that name on its way. */
  ghost predicate ThroughCurrent(b: BinLink) {
    match b
    case Absent => false
    case ViaCurrent(_) => true
    case Direct(v, r) => v == "current" || exists i :: 0 <= i < |r| - 1 && r[i] == "current"
  }

  lemma CurrentInsideExactly(d: Disk, b: BinLink)
    requires BinOk(b)
    ensures HasCurrentInside(d, b) <==> ThroughCurrent(b)
  {
    if !b.Absent? {
      LinkTextIs(d, b);
      var t := UpAndDown(b);
      if b.ViaCurrent? {
        assert t[3] == "current";
      } else {
        assert t[0] == ".." && t[1] == "share" && t[2] == "cursor-agent" && t[3] == "versions" && t[4] == b.version;
        forall i | 5 <= i < |t| ensures t[i] == b.rel[i - 5] {}
        if i :| 0 <= i < |b.rel| - 1 && b.rel[i] == "current" { assert t[i + 5] == "current"; }
        if i :| 0 < i < |t| - 1 && t[i] == "current" { assert i == 4 || b.rel[i - 5] == "current"; }
      }
    }
  }

  function Unlinked(b: BinLink, gone: bool): BinLink { if gone then Absent else b }

  /** The links after the clean-up of a first installation: those with "/current/" in their text
      and `current` itself are gone, any other is left. */
  ghost predicate LinksUndone(d: Disk, d': Disk) {
    && d'.current.None?
    && d'.agent == Unlinked(d.agent, ThroughCurrent(d.agent))
    && d'.cursorAgent == Unlinked(d.cursorAgent, ThroughCurrent(d.cursorAgent))
  }

  const CLEAN: seq<Event> := [Op(true), Op(true), Op(true)]

  lemma CleansUp(s: State, job: Job)
    requires s.phase == Running(CleanAgent, job) && BinOk(s.disk.agent) && BinOk(s.disk.cursorAgent)
    ensures var s' := Run(s, CLEAN);
            && s'.phase.Finished? && !s'.phase.success && s'.disk.dirs == s.disk.dirs && LinksUndone(s.disk, s'.disk)
  {
    var d := s.disk;
    CurrentInsideExactly(d, d.agent);
    var s1 := CleanAgentIf(s, job, ThroughCurrent(d.agent), true);
    assert s1.disk.cursorAgent == d.cursorAgent;
    CurrentInsideExactly(s1.disk, d.cursorAgent);
    var s2 := CleanCursorIf(s1, job, ThroughCurrent(d.cursorAgent), true);
    RunThree(s, Op(true), s1, Op(true), s2, Op(true), OpCleanCurrent(s2, job, true));
  }

  /** The end of the rollback's work on directories, and what comes after it when it works. */
  lemma EndsUndone(s: State, job: Job)
    requires BinOk(s.disk.agent) && BinOk(s.disk.cursorAgent)
    ensures var s' := Run(AfterRollback(s, job), CLEAN);
            && s'.phase.Finished? && !s'.phase.success && s'.disk.dirs == s.disk.dirs
            && (if job.prior.NotInstalled? then LinksUndone(s.disk, s'.disk) else s'.disk == s.disk)
  {
    if job.prior.NotInstalled? {
      CleansUp(At(s, CleanAgent, job), job);
    } else {
      FinishedStays(Fail(s, job), CLEAN);
    }
  }

  /** The rollback from where it begins, when its own steps work. */
  const UNDO: seq<Event> := [Remove(None), Op(true), Op(true), Op(true), Op(true)]

  lemma RestoreStep(s: State, job: Job)
    requires s.phase == Running(RollbackRestore, job)
    requires job.version !in s.disk.dirs && BackupOf(job.version) in s.disk.dirs
    ensures Step(s, Op(true)) ==
            AfterRollback(Dirs(s, RenameDir(s.disk.dirs, BackupOf(job.version), job.version)), job)
  {}

  lemma RemoveStep(s: State, job: Job)
    requires s.phase == Running(RollbackRemove, job)
    ensures Step(s, Remove(None)) ==
            if job.existed then At(Removed(s, job.version, None), RollbackRestore, job)
            else AfterRollback(Removed(s, job.version, None), job)
  {}

  /** What a call that began on one disk and failed leaves on another: the version's directory
      as it was, others too, the same answer of the inspection; the links as the rollback found
      them, but for those it takes away after a first installation. */
  ghost predicate Undone(s: State, job: Job, s': State) {
    && s'.phase.Finished? && !s'.phase.success
    && SameAt(s'.disk.dirs, job.entry.dirs, job.version) && Outside(s'.disk.dirs, job.entry.dirs, job.version)
    && Inspect(s'.disk) == Inspect(job.entry)
    && (if s.stands.NotInstalled? then LinksUndone(s.disk, s'.disk)
        else LinksSame(s'.disk, s.disk))
    && (NoLinks(job.entry) ==> NoLinks(s'.disk))
  }

  ghost predicate BackAgain(s: State, job: Job, s': State) {
    && s'.phase.Finished? && !s'.phase.success && SameAt(s'.disk.dirs, job.entry.dirs, job.version)
    && (if job.prior.NotInstalled? then LinksUndone(s.disk, s'.disk) else s'.disk == s.disk.(dirs := s'.disk.dirs))
  }

  lemma OldDirectoryBack(s: State, job: Job)
    requires s.phase == Running(RollbackRemove, job) && Plain(job.version) && Saved(s.disk, job)
    requires job.existed && BinOk(s.disk.agent) && BinOk(s.disk.cursorAgent)
    ensures BackAgain(s, job, Run(s, UNDO))
  {
    var v := job.version;
    SiblingPlain(v);
    RemoveOutside(s.disk.dirs, v, None);
    assert SameAt(RemoveDir(s.disk.dirs, v, None), s.disk.dirs, BackupOf(v));
    var s1 := At(Removed(s, v, None), RollbackRestore, job);
    RemoveStep(s, job);
    RestoreStep(s1, job);
    var s2 := Dirs(s1, RenameDir(s1.disk.dirs, BackupOf(v), v));
    RunTwo(s, Remove(None), s1, Op(true), AfterRollback(s2, job));
    RunConcat(s, [Remove(None), Op(true)], CLEAN);
    assert [Remove(None), Op(true)] + CLEAN == UNDO;
    EndsUndone(s2, job);
  }

  lemma NewDirectoryGone(s: State, job: Job)
    requires s.phase == Running(RollbackRemove, job) && Saved(s.disk, job)
    requires !job.existed && BinOk(s.disk.agent) && BinOk(s.disk.cursorAgent)
    ensures BackAgain(s, job, Run(s, UNDO))
  {
    var s1 := Removed(s, job.version, None);
    RemoveStep(s, job);
    RunOn(s, [], Remove(None));
    assert [] + [Remove(None)] == [Remove(None)];
    RunConcat(s, [Remove(None)], CLEAN + [Op(true)]);
    assert [Remove(None)] + (CLEAN + [Op(true)]) == UNDO;
    RunConcat(AfterRollback(s1, job), CLEAN, [Op(true)]);
    EndsUndone(s1, job);
    FinishedStays(Run(AfterRollback(s1, job), CLEAN), [Op(true)]);
  }

  lemma NoLinksLeft(world: World, s: State, job: Job, d': Disk)
    requires Inv(world, s) && s.phase == Running(RollbackRemove, job) && LinksUndone(s.disk, d') && NoLinks(job.entry)
    ensures NoLinks(d')
  {}

  lemma UndoEvents(world: World)
    ensures EventsOk(world, UNDO) && CallEvents(UNDO)
  {}

  lemma UndoKeeps(world: World, s: State)
    requires WorldOk(world) && Inv(world, s)
    ensures Inv(world, Run(s, UNDO)) && EntryOf(Run(s, UNDO).phase) == EntryOf(s.phase)
  {
    UndoEvents(world);
    RunKeeps(world, s, UNDO);
    CallKeepsEntry(s, UNDO);
  }

  lemma GoesBack(s: State, job: Job)
    requires s.phase == Running(RollbackRemove, job) && Plain(job.version) && Saved(s.disk, job)
    requires BinOk(s.disk.agent) && BinOk(s.disk.cursorAgent)
    ensures BackAgain(s, job, Run(s, UNDO))
  {
    if job.existed { OldDirectoryBack(s, job); } else { NewDirectoryGone(s, job); }
  }

  /** From every state in which the rollback begins, if its own steps work: the target directory
      has its earlier contents or absence back, nothing else has changed, inspection answers as
      before the call, and a first installation leaves no link behind. */
  lemma RollbackRestores(world: World, s: State)
    requires WorldOk(world) && Inv(world, s) && s.phase.Running? && s.phase.pc.RollbackRemove?
    ensures Undone(s, s.phase.job, Run(s, UNDO))
  {
    WorkingFacts(world, s);
    GoesBack(s, s.phase.job);
    UndoKeeps(world, s);
    UndoneMeans(world, s, Run(s, UNDO));
  }

  lemma UndoneMeans(world: World, s: State, s': State)
    requires Inv(world, s) && Inv(world, s') && s.phase.Running? && s.phase.pc.RollbackRemove?
    requires EntryOf(s'.phase) == EntryOf(s.phase) && BackAgain(s, s.phase.job, s')
    ensures Undone(s, s.phase.job, s')
  {
    var job := s.phase.job;
    FinishedMeans(world, s', job.entry);
    InstalledHasLinks(world, job.entry, s.stands);
    if NoLinks(job.entry) { NoLinksLeft(world, s, job, s'.disk); }
  }

  /** The same when activating the new directory has failed, whatever becomes of the staged
      one. */
  lemma ActivationUndone(world: World, s: State, keep: Option<set<Path>>)
    requires WorldOk(world) && Inv(world, s) && s.phase.Running? && s.phase.pc.DropActivated?
    ensures var s1 := Step(s, Remove(keep));
            && s1.phase == Running(RollbackRemove, s.phase.job)
            && Undone(s1, s.phase.job, Run(s1, UNDO)) && Run(s, [Remove(keep)] + UNDO) == Run(s1, UNDO)
  {
    StepKeeps(world, s, Remove(keep));
    RollbackRestores(world, Step(s, Remove(keep)));
    RunOn(s, [], Remove(keep));
    assert [] + [Remove(keep)] == [Remove(keep)];
    RunConcat(s, [Remove(keep)], UNDO);
  }

  /** A call that ends before the new directory was to be activated has touched neither the
      target directory nor a link. */
  lemma EarlyEndTouchesNothing(world: World, s: State, e: Event)
    requires WorldOk(world) && Inv(world, s) && s.phase.Running? && Step(s, e).phase.Finished? && !e.Begin? && !e.Crash?
    requires s.phase.pc in {MkVersions, ReadPrior, ClearStaged, Stage, ClearBackup, Backup, DropStaged}
    ensures var d, job := Step(s, e).disk, s.phase.job;
            SameAt(d.dirs, job.entry.dirs, job.version) && LinksSame(d, job.entry)
  {
    WorkingFacts(world, s);
    SiblingPlain(s.phase.job.version);
    if e.Remove? {
      RemoveOutside(s.disk.dirs, Staged(s.phase.job.version), e.keep);
      assert SameAt(RemoveDir(s.disk.dirs, Staged(s.phase.job.version), e.keep), s.disk.dirs, s.phase.job.version);
    }
  }

  /** In every run: wherever a rollback begins, it restores if its own steps work. */
  lemma RunsAreUndone(world: World, d: Disk, es: seq<Event>)
    requires Startable(world, d) && EventsOk(world, es)
    requires var s := Run(StartOf(d), es); s.phase.Running? && s.phase.pc.RollbackRemove?
    ensures var s := Run(StartOf(d), es);
            Undone(s, s.phase.job, Run(s, UNDO)) && Run(StartOf(d), es + UNDO) == Run(s, UNDO)
  {
    Reachable(world, d, es);
    RollbackRestores(world, Run(StartOf(d), es));
    RunConcat(StartOf(d), es, UNDO);
  }

  // ---------------------------------------------------------------- one failure, and the way out

  /** Where a failed operation leads: straight out before anything is staged, over dropping the
      staged tree until it is in place, and into the rollback from then on. */
  lemma FailureLeads(s: State)
    requires Essential(s)
    ensures var s' := Step(s, Op(false)); var job := s.phase.job;
            match s.phase.pc
            case MkVersions => s'.phase.Finished?
            case Stage => s'.phase.Finished?
            case Backup => s' == At(s, DropStaged, job)
            case Activate => s' == At(s, DropActivated, job)
            case _ => s' == At(s, RollbackRemove, job)
  {}

  /** Dropping the staged tree, when that works, leaves none. */
  lemma DropsStaged(s: State, job: Job)
    requires s.phase == Running(DropStaged, job) || s.phase == Running(DropActivated, job)
    ensures var s' := Step(s, Remove(None));
            && s'.disk == s.disk.(dirs := s.disk.dirs - {Staged(job.version)})
            && (if s.phase.pc.DropStaged? then s'.phase.Finished? && !s'.phase.success
                else s'.phase == Running(RollbackRemove, job))
  {}

  /** Putting the earlier directory aside fails: the call ends, nothing stays staged, and neither
      the directory nor a link was touched. */
  lemma BackupFailureUndone(world: World, s: State)
    requires WorldOk(world) && Inv(world, s) && Essential(s) && s.phase.pc.Backup?
    ensures var s' := Run(s, [Op(false), Remove(None)]); var job := s.phase.job;
            && s'.phase.Finished? && !s'.phase.success && Staged(job.version) !in s'.disk.dirs
            && SameAt(s'.disk.dirs, job.entry.dirs, job.version) && LinksSame(s'.disk, job.entry)
  {
    var job := s.phase.job;
    var s1 := At(s, DropStaged, job);
    FailureLeads(s);
    DropsStaged(s1, job);
    RunTwo(s, Op(false), s1, Remove(None), Step(s1, Remove(None)));
    StepKeeps(world, s, Op(false));
    EarlyEndTouchesNothing(world, s1, Remove(None));
  }

  /** Moving the new directory into place fails: nothing stays staged, and the rollback restores
      what was there. */
  lemma ActivationFailureUndone(world: World, s: State)
    requires WorldOk(world) && Inv(world, s) && Essential(s) && s.phase.pc.Activate?
    ensures var s1 := Run(s, [Op(false), Remove(None)]); var job := s.phase.job;
            && Staged(job.version) !in s1.disk.dirs && s1.phase == Running(RollbackRemove, job)
            && Undone(s1, job, Run(s1, UNDO))
  {
    var job := s.phase.job;
    var s1 := At(s, DropActivated, job);
    FailureLeads(s);
    DropsStaged(s1, job);
    RunTwo(s, Op(false), s1, Remove(None), Step(s1, Remove(None)));
    StepKeeps(world, s, Op(false));
    ActivationUndone(world, s1, None);
  }

  /** A link cannot be replaced, or a directory for it made: the rollback restores what was
      there. */
  lemma LinkFailureUndone(world: World, s: State)
    requires WorldOk(world) && Inv(world, s) && Essential(s)
    requires s.phase.pc in {Prepare, MkBin, LinkAgent, LinkCursor, Swap}
    ensures var s1 := Step(s, Op(false));
            && s1.disk == s.disk && s1.phase == Running(RollbackRemove, s.phase.job)
            && Undone(s1, s.phase.job, Run(s1, UNDO))
  {
    FailureLeads(s);
    StepKeeps(world, s, Op(false));
    RollbackRestores(world, Step(s, Op(false)));
  }

  /** A crash forgets the call and nothing else; a removal that stops half-way leaves some of the
      directory's entries, as they were. */
  lemma Mishaps(s: State, dirs: map<Name, Tree>, n: Name, kept: set<Path>)
    ensures Step(s, Crash) == State(s.disk, Idle, s.stands)
    ensures n in dirs ==>
              var t := RemoveDir(dirs, n, Some(kept));
              && t.Keys == dirs.Keys && (forall p :: p in t[n] <==> p in dirs[n] && p in kept)
              && Part(t[n], dirs[n])
  {}

  // ---------------------------------------------------------------- whole calls

  /** The event, if it is the outcome of a step of the deferred function, is a success. */
  ghost predicate UndoStepWorks(s: State, e: Event) {
    s.phase.Running? ==>
      && (s.phase.pc in {RollbackRemove, Commit} && e.Remove? ==> e.keep.None?)
      && (s.phase.pc in {RollbackRestore, CleanAgent, CleanCursor, CleanCurrent} && e.Op? ==> e.ok)
  }

  /** Whatever else may fail in the call, the steps of its deferred function do not. */
  ghost predicate UndoWorks(s: State, es: seq<Event>) {
    forall k :: 0 <= k < |es| ==> UndoStepWorks(Run(s, es[..k]), es[k])
  }

  ghost predicate IsTidy(s: State) {
    match s.phase
    case Running(_, job) => job.tidy
    case Finished(_, _, _, _, tidy) => tidy
    case _ => true
  }

  lemma CleanIsTidy(s: State, job: Job, mine: bool)
    requires job.tidy
    ensures IsTidy(CleanAgentIf(s, job, mine, true)) && IsTidy(CleanCursorIf(s, job, mine, true))
  {}

  lemma RestoreIsTidy(s: State, job: Job)
    requires s.phase == Running(RollbackRestore, job) && job.tidy && PcFacts(RollbackRestore, s.disk, job)
    ensures IsTidy(OpRestore(s, job, true))
  {}

  lemma ReplaceIsTidy(s: State, job: Job, v: Name, ok: bool, next: Pc)
    requires job.tidy
    ensures IsTidy(ReplaceCurrent(s, job, v, ok, next))
  {}

  lemma OpIsTidy(world: World, s: State, ok: bool)
    requires PhaseOk(world, s) && s.phase.Running? && s.phase.job.tidy && UndoStepWorks(s, Op(ok))
    ensures IsTidy(StepOp(s, s.phase.pc, s.phase.job, ok))
  {
    var d, job := s.disk, s.phase.job;
    match s.phase.pc {
      case ReadPrior => ReadPriorIsTidy(s, job);
      case Prepare => ReplaceIsTidy(s, job, if job.prior.Installed? then job.prior.version else "", ok, MkBin);
      case Swap => ReplaceIsTidy(s, job, job.version, ok, Commit);
      case RollbackRestore => RestoreIsTidy(s, job);
      case CleanAgent => CleanIsTidy(s, job, HasCurrentInside(d, d.agent));
      case CleanCursor => CleanIsTidy(s, job, HasCurrentInside(d, d.cursorAgent));
      case _ =>
    }
  }

  lemma ReadPriorIsTidy(s: State, job: Job)
    requires job.tidy
    ensures IsTidy(OpReadPrior(s, job))
  {}

  lemma RemoveIsTidy(s: State, keep: Option<set<Path>>)
    requires s.phase.Running? && s.phase.job.tidy && UndoStepWorks(s, Remove(keep))
    ensures IsTidy(StepRemove(s, s.phase.pc, s.phase.job, keep))
  {}

  lemma StepIsTidy(world: World, s: State, e: Event)
    requires PhaseOk(world, s) && IsTidy(s) && UndoStepWorks(s, e)
    ensures IsTidy(Step(s, e))
  {
    match e {
      case Op(ok) => if s.phase.Running? { OpIsTidy(world, s, ok); }
      case Remove(keep) => if s.phase.Running? { RemoveIsTidy(s, keep); }
      case _ =>
    }
  }

  lemma {:induction false} RunIsTidy(world: World, s: State, es: seq<Event>)
    requires WorldOk(world) && Inv(world, s) && EventsOk(world, es) && IsTidy(s) && UndoWorks(s, es)
    ensures IsTidy(Run(s, es))
    decreases |es|
  {
    if es != [] {
      var front := es[..|es| - 1];
      assert UndoWorks(s, front) by {
        forall k | 0 <= k < |front| ensures UndoStepWorks(Run(s, front[..k]), front[k]) {
          assert front[..k] == es[..k] && front[k] == es[k];
        }
      }
      RunIsTidy(world, s, front);
      RunKeeps(world, s, front);
      assert UndoStepWorks(Run(s, es[..|es| - 1]), es[|es| - 1]);
      StepIsTidy(world, Run(s, front), es[|es| - 1]);
    }
  }

  /** How a call leaves the root when the steps of its deferred function work: after success the
      version is installed from the package and nothing is staged or put aside; after failure
      the version's directory is as it was found, inspection answers as before, and where there
      were no links there are none. Other versions' directories are never touched. */
  ghost predicate Settled(found: Disk, d: Disk, v: Name, f: Phase)
    requires f.Finished?
  {
    && Outside(d.dirs, found.dirs, v)
    && (f.success && f.fetched.None? ==> d == found)
    && (f.success && f.fetched.Some? ==>
          && Inspect(d) == Ok(Installed(v, RealBin(f.fetched.value)))
          && TreeIn(d, v, f.fetched.value.tree) && Staged(v) !in d.dirs && BackupOf(v) !in d.dirs)
    && (!f.success ==>
          && SameAt(d.dirs, found.dirs, v) && Inspect(d) == Inspect(found) && (NoLinks(found) ==> NoLinks(d)))
  }

  /** Whatever happened before a call and whichever of its operations fail: if the steps of its
      deferred function work, the call succeeds outright or leaves everything as it was. */
  lemma CallRestores(world: World, d: Disk, before: seq<Event>, v: Name, es: seq<Event>)
    requires Startable(world, d) && EventsOk(world, before) && v in world.asked && EventsOk(world, es) && CallEvents(es)
    requires var s0 := Run(StartOf(d), before);
             (s0.phase.Idle? || s0.phase.Finished?) && UndoWorks(Step(s0, Begin(v)), es)
    requires Run(Step(Run(StartOf(d), before), Begin(v)), es).phase.Finished?
    ensures var s0 := Run(StartOf(d), before);
            var s := Run(Step(s0, Begin(v)), es);
            Settled(s0.disk, s.disk, v, s.phase)
  {
    var s0 := Run(StartOf(d), before);
    Reachable(world, d, before);
    CallKeeps(world, s0, v, es);
    StepKeeps(world, s0, Begin(v));
    BeginIsTidy(s0, v);
    RunIsTidy(world, Step(s0, Begin(v)), es);
  }

  lemma BeginIsTidy(s: State, v: Name)
    requires s.phase.Idle? || s.phase.Finished?
    ensures IsTidy(Step(s, Begin(v)))
  {}
}
