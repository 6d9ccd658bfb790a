/** Where the installer's promises end: exact conditions, with the inputs that show it,
    and the link from an accepted archive to the package the installer works with. */
module InstallLimits {
  import opened Wrappers
  import opened Paths
  import opened Resolve
  import opened Layout
  import opened InstallMachine
  import opened InstallSafety
  import opened InstallSteps
  import opened InstallRuns
  import opened InstallProgress
  import Extract

  // ---------------------------------------------------------------- from an archive to a package

  /** What lies below a directory, by path inside it. */
  function Subtree(fs: Extract.Files, base: Path): Tree {
    var inside := set q | q in fs && base < q :: q[|base|..];
    map p | p in inside && base + p in fs :: fs[base + p]
  }

  lemma SubtreeView(fs: Extract.Files, base: Path)
    ensures forall p: Path :: p != [] ==> TreeView(Subtree(fs, base))(p) == Extract.ViewOf(fs)(base + p)
    ensures [] !in Subtree(fs, base)
  {
    forall p: Path | p != [] ensures TreeView(Subtree(fs, base))(p) == Extract.ViewOf(fs)(base + p) {
      var q := base + p;
      assert base < q && q[|base|..] == p;
      if q in fs { assert p in (set r | r in fs && base < r :: r[|base|..]); }
    }
  }

  /** An accepted archive is a package the installer's promises cover, and the version
      check ran the last file that is named like the agent. */
  lemma ExtractedIsGenuine(fs: Extract.Files, items: seq<Extract.Item>, base: Path, lim: Extract.Limits,
                           x: Extract.Extracted, v: Name)
    requires Extract.FreshDir(fs, base) && Extract.ExtractSpec(fs, items, base, lim) == Ok(x)
    ensures var p := Package(Subtree(x.fs, base), x.bin);
            var done := Extract.Entries(items);
            var k := Extract.LastBinary(done);
            && Genuine(p) && k >= 0 && p.rel == done[k].comps
            && (Verified(p.tree, p.rel, v) <==> Contains(done[k].kind.banner, v))
            && Validates(p.tree, p.rel)
  {
    Extract.ExtractionFacts(fs, items, base, lim, x);
    var t := Subtree(x.fs, base);
    SubtreeView(x.fs, base);
    SubtreeTame(fs, x.fs, base);
    var look := Extract.ViewOf(x.fs);
    WalkFromRoot(look, base, x.bin, KERNEL_LINKS);
    assert base + [] == base;
    PlainHasNoParent(x.bin);
    WalkBelow(look, base, TreeView(t), [], x.bin, KERNEL_LINKS);
    var q := Walk(TreeView(t), [], x.bin, KERNEL_LINKS).path;
    assert TreeView(t)(q) == look(base + q);
    WalkBudget(TreeView(t), [], x.bin, KERNEL_LINKS, EVAL_LINKS);
  }

  lemma PlainHasNoParent(p: Path)
    requires AllPlain(p)
    ensures ".." !in p
  {}

  lemma SubtreeTame(fs0: Extract.Files, fs: Extract.Files, base: Path)
    requires Extract.Contained(fs0, fs, base)
    ensures TameTree(Subtree(fs, base))
  {
    var t := Subtree(fs, base);
    SubtreeView(fs, base);
    forall p | p in t && t[p].Link?
      ensures Tame(t[p].target) && forall c :: c in t[p].target.comps ==> NoSlash(c)
    {
      assert TreeView(t)(p) == Extract.ViewOf(fs)(base + p) == Some(t[p]);
    }
  }

  // ---------------------------------------------------------------- the path read back

  /** A successful call reads back the extracted binary path exactly when that path runs
      through no link of the archive. */
  lemma ReadsBackExactly(p: Package, v: Name)
    requires PackageOk(p, v)
    ensures RealBin(p) == p.rel <==> Canonical(TreeView(p.tree), p.rel)
  {
    TreeWalkCanonical(p.tree, p.rel, KERNEL_LINKS);
    if Canonical(TreeView(p.tree), p.rel) { WalkFixesCanonical(TreeView(p.tree), p.rel, KERNEL_LINKS); }
  }

  /** An archive with a linked directory in front of the binary is installed under one
      path and read back under another. */
  lemma LinkedParentReadsBackElsewhere(v: Name)
    ensures var p := Package(map[["dist"] := Link(Target(false, ["pkg"])), ["pkg"] := Dir, ["pkg", "agent"] := File(v)],
                             ["dist", "agent"]);
            PackageOk(p, v) && RealBin(p) == ["pkg", "agent"]
  {
    var t: Tree := map[["dist"] := Link(Target(false, ["pkg"])), ["pkg"] := Dir, ["pkg", "agent"] := File(v)];
    var look := TreeView(t);
    assert ["dist", "agent"][1..] == ["agent"] && ["pkg"] + ["agent"] == ["pkg", "agent"];
    assert ["pkg", "agent"][1..] == ["agent"] && ["agent"][1..] == [];
    assert [] + ["dist"] == ["dist"] && [] + ["pkg"] == ["pkg"];
    forall n: nat | n > 0 ensures Walk(look, [], ["dist", "agent"], n) == Found(["pkg", "agent"]) {
      assert Walk(look, ["pkg"], ["agent"], n - 1) == Found(["pkg", "agent"]);
      assert Walk(look, [], ["pkg", "agent"], n - 1) == Found(["pkg", "agent"]);
    }
    assert v <= v[0..];
    assert Tame(t[["dist"]].target) by { assert ["pkg"][0] != ".."; }
  }

  // ---------------------------------------------------------------- names of siblings

  /** Clearing a directory before staging is invisible exactly when it is not the
      installed version's: a version named like another one's ".new" or ".old" is
      deleted while it is in use. */
  lemma ClearingExactly(d: Disk, v: Name, q: Path, n: Name)
    requires Wf(d) && InstalledAt(d, v, q)
    ensures var d' := d.(dirs := RemoveDir(d.dirs, n, None));
            && (Inspect(d') == Inspect(d) <==> n != v)
            && (n == v ==> Inspect(d') == Ok(NotInstalled))
  {
    var d' := d.(dirs := RemoveDir(d.dirs, n, None));
    var nowhere := World({}, {}, iset{});
    StandsMeans(nowhere, d, Installed(v, q));
    RemoveDirOk(d.dirs, n, None);
    if n == v {
      InspectMeans(d');
    } else {
      assert SameAt(d'.dirs, d.dirs, v);
      DirsElsewhere(d, d'.dirs, v, q);
      StandsMeans(nowhere, d', Installed(v, q));
    }
  }

  // ---------------------------------------------------------------- a `current` left behind

  /** Without bin links, placing the first one keeps the root readable exactly when
      nothing answers behind `current` yet. */
  lemma FirstLinkExactly(d: Disk, rel: Path)
    requires Wf(d) && d.agent.Absent? && d.cursorAgent.Absent? && RelOk(rel)
    ensures var d' := d.(agent := ViaCurrent(rel));
            && (Inspect(d').Ok? <==> BinResolves(d, ViaCurrent(rel)).NotExist?)
            && (BinResolves(d, ViaCurrent(rel)).Found? ==> Inspect(d') == Err(Incomplete))
  {
    var d' := d.(agent := ViaCurrent(rel));
    InspectMeans(d');
    assert BinResolves(d', ViaCurrent(rel)) == BinResolves(d, ViaCurrent(rel));
  }

  // ---------------------------------------------------------------- calls that cannot get anywhere

  /** Inspection fails, or reports a binary at another path than the package's. */
  ghost predicate Blocks(d: Disk, p: Package) {
    match Inspect(d)
    case Err(_) => true
    case Ok(NotInstalled) => false
    case Ok(Installed(_, q)) => q != p.rel
  }

  ghost predicate AllBlocked(d: Disk, es: seq<Event>) {
    forall i :: 0 <= i < |es| ==> match es[i] case Fetch(Some(p)) => Blocks(d, p) case _ => true
  }

  ghost predicate Waits(d: Disk, s: State) {
    && s.disk == d
    && match s.phase
       case Idle => true
       case Fetching(_, _) => true
       case Running(pc, job) => (pc.MkVersions? || pc.ReadPrior?) && Blocks(d, job.pkg)
       case Finished(v, success, fetched, _, _) =>
         success ==> fetched.None? && Inspect(d).Ok? && Inspect(d).value.Installed? && Inspect(d).value.version == v
  }

  lemma WaitsOn(d: Disk, s: State, e: Event)
    requires Waits(d, s) && (e.Fetch? && e.pkg.Some? ==> Blocks(d, e.pkg.value))
    ensures Waits(d, Step(s, e))
  {}

  /** With packages that are blocked, no sequence of calls ever touches the disk again, and
      none but calls for the version already active succeed. */
  lemma {:induction false} BlockedForever(d: Disk, stands: Install, es: seq<Event>)
    requires AllBlocked(d, es)
    ensures Waits(d, Run(State(d, Idle, stands), es))
    decreases |es|
  {
    if es != [] {
      var front := es[..|es| - 1];
      assert AllBlocked(d, front) by {
        forall i | 0 <= i < |front|
          ensures match front[i] case Fetch(Some(p)) => Blocks(d, p) case _ => true
        {
          assert front[i] == es[i];
        }
      }
      BlockedForever(d, stands, front);
      WaitsOn(d, Run(State(d, Idle, stands), front), es[|es| - 1]);
    }
  }

  /** Once inspection fails, the root stays unreadable until somebody repairs it by hand. */
  lemma UnreadableForever(d: Disk, stands: Install, es: seq<Event>)
    requires Inspect(d).Err?
    ensures var s := Run(State(d, Idle, stands), es); s.disk == d && !(s.phase.Finished? && s.phase.success)
  {
    BlockedForever(d, stands, es);
  }

  /** Once a package whose binary lies behind a link of its archive is active, every later
      call with a package of that same layout is refused, for ever. */
  lemma LinkedLayoutIsStuck(d: Disk, v: Name, p: Package, stands: Install, es: seq<Event>)
    requires PackageOk(p, v) && Inspect(d) == Ok(Installed(v, RealBin(p))) && !Canonical(TreeView(p.tree), p.rel)
    requires forall i :: 0 <= i < |es| && es[i].Fetch? && es[i].pkg.Some? ==> es[i].pkg.value.rel == p.rel
    ensures var s := Run(State(d, Idle, stands), es);
            s.disk == d && (s.phase.Finished? && s.phase.success ==> s.phase.version == v && s.phase.fetched.None?)
  {
    ReadsBackExactly(p, v);
    BlockedForever(d, stands, es);
  }

  // ---------------------------------------------------------------- roots that wake too early

  /** A call that begins and goes on until the new tree is in place. */
  function UpToPlaced(v: Name, p: Package): seq<Event> { [Begin(v)] + Arrival(p) + STOW }

  /** And on to the first bin link. */
  function UpToFirstLink(v: Name, p: Package): seq<Event> { UpToPlaced(v, p) + FIRST_LINK }

  lemma ReachesPlaced(d: Disk, v: Name, p: Package)
    requires Inspect(d) == Ok(NotInstalled) && PackageOk(p, v) && Plain(v) && DirsOk(d.dirs)
    ensures var job := Job(v, p, NotInstalled, v in ClearedDirs(d.dirs, v, p), d, true);
            Run(State(d, Idle, NotInstalled), UpToPlaced(v, p)) ==
            State(d.(dirs := PlacedDirs(d.dirs, v, p)), Running(Validate, job), NotInstalled)
  {
    var s0, s1 := State(d, Idle, NotInstalled), State(d, Fetching(v, d), NotInstalled);
    RunOn(s0, [], Begin(v));
    assert [] + [Begin(v)] == [Begin(v)] && Step(s0, Begin(v)) == s1;
    RunConcat(s0, [Begin(v)], Arrival(p));
    RunConcat(s0, [Begin(v)] + Arrival(p), STOW);
    Arrives(s1, v, p);
    var job := Job(v, p, NotInstalled, false, d, true);
    Stows(At(s1, ClearStaged, job), job);
  }

  lemma ReachesFirstLink(d: Disk, v: Name, p: Package)
    requires Inspect(d) == Ok(NotInstalled) && PackageOk(p, v) && Plain(v) && DirsOk(d.dirs)
    ensures var s := Run(State(d, Idle, NotInstalled), UpToFirstLink(v, p));
            s.disk == Linked(d, v, p) && s.stands == NotInstalled
  {
    ReachesPlaced(d, v, p);
    PlacedMeans(d.dirs, v, p);
    RunConcat(State(d, Idle, NotInstalled), UpToPlaced(v, p), FIRST_LINK);
    var job := Job(v, p, NotInstalled, v in ClearedDirs(d.dirs, v, p), d, true);
    PlacesFirstLink(State(d.(dirs := PlacedDirs(d.dirs, v, p)), Running(Validate, job), NotInstalled), job);
  }

  /** The disk after the first bin link. */
  function Linked(d: Disk, v: Name, p: Package): Disk {
    d.(dirs := PlacedDirs(d.dirs, v, p), agent := ViaCurrent(p.rel))
  }

  /** A direct link that finds something in the new tree. */
  lemma WakesWhenPlaced(d: Disk, v: Name, p: Package)
    requires Wf(d) && Plain(v) && PackageOk(p, v)
    requires !StaysDangling(d.agent, v, p.tree) || !StaysDangling(d.cursorAgent, v, p.tree)
    ensures Inspect(d.(dirs := PlacedDirs(d.dirs, v, p))) != Ok(NotInstalled)
  {
    PlacedMeans(d.dirs, v, p);
    InspectMeans(d.(dirs := PlacedDirs(d.dirs, v, p)));
  }

  /** A `current` that is there and leads somewhere when the first link goes through it. */
  lemma WakesWhenLinked(d: Disk, v: Name, p: Package, c: Name)
    requires Wf(d) && Plain(v) && PackageOk(p, v) && d.current == Some(c) && c != Staged(v) && c != BackupOf(v)
    requires c == v || (c in d.dirs && !Missing(d.dirs[c], p.rel, EVAL_LINKS - 2))
    ensures Inspect(Linked(d, v, p)) != Ok(NotInstalled)
  {
    PlacedMeans(d.dirs, v, p);
    var d' := Linked(d, v, p);
    if c == v { VerifiedIsFound(p, v); } else { assert SameAt(d'.dirs, d.dirs, c); }
    assert !Missing(d'.dirs[c], p.rel, EVAL_LINKS - 2);
    NotMissingIsSeen(d', c, p.rel);
  }

  lemma VerifiedIsFound(p: Package, v: Name)
    requires PackageOk(p, v)
    ensures Walk(TreeView(p.tree), [], p.rel, EVAL_LINKS - 2) == Found(RealBin(p)) &&
            !Missing(p.tree, p.rel, EVAL_LINKS - 2)
  {
    WalkBudget(TreeView(p.tree), [], p.rel, KERNEL_LINKS, EVAL_LINKS - 2);
  }

  lemma NotMissingIsSeen(d: Disk, c: Name, r: Path)
    requires Wf(d) && d.agent == ViaCurrent(r) && d.current == Some(c)
    requires c in d.dirs && !Missing(d.dirs[c], r, EVAL_LINKS - 2)
    ensures Inspect(d) != Ok(NotInstalled)
  {
    InspectMeans(d);
  }

  ghost predicate Readable(d: Disk, es: seq<Event>) {
    var s := Run(State(d, Idle, NotInstalled), es); Inspect(s.disk) == Ok(s.stands)
  }

  /** A package that is not quiet is seen too early in a call in which nothing fails. */
  lemma LoudIsSeen(names: set<Name>, d: Disk, v: Name, p: Package)
    requires NamesOk(names) && v in names && (d.current.Some? ==> d.current.value in names)
    requires Wf(d) && Inspect(d) == Ok(NotInstalled) && PackageOk(p, v) && !Quiet(d, v, p)
    ensures !Readable(d, UpToPlaced(v, p)) || !Readable(d, UpToFirstLink(v, p))
  {
    if !StaysDangling(d.agent, v, p.tree) || !StaysDangling(d.cursorAgent, v, p.tree) {
      ReachesPlaced(d, v, p);
      WakesWhenPlaced(d, v, p);
    } else {
      ReachesFirstLink(d, v, p);
      WakesWhenLinked(d, v, p, d.current.value);
    }
  }

  /** A root on which nothing is installed stays readable in every run, and its answer changes
      in no step but the swap, if and only if every package that may come is quiet on it: no
      direct link finds anything in its tree, and `current`, if it is there, names neither its
      version nor a directory in which its path leads anywhere. */
  lemma SafeExactly(names: set<Name>, asked: set<Name>, feed: iset<Package>, d: Disk)
    requires NamesOk(names) && asked <= names && forall p :: p in feed ==> Genuine(p)
    requires Wf(d) && Inspect(d) == Ok(NotInstalled) && LinksNamed(FeedWorld(names, asked, feed), d)
    ensures var world := FeedWorld(names, asked, feed);
            (forall es :: EventsOk(world, es) ==> Readable(d, es)) <==>
            (forall v, p :: v in asked && p in feed && PackageOk(p, v) ==> Quiet(d, v, p))
  {
    var world := FeedWorld(names, asked, feed);
    FeedWorldIsOk(names, asked, feed);
    if forall v, p :: v in asked && p in feed && PackageOk(p, v) ==> Quiet(d, v, p) {
      assert Calm(world, d);
      forall es | EventsOk(world, es) ensures Readable(d, es) {
        Reachable(world, d, es);
        var s := Run(StartOf(d), es);
        StandsMeans(world, s.disk, s.stands);
      }
    } else {
      var v, p :| v in asked && p in feed && PackageOk(p, v) && !Quiet(d, v, p);
      LoudIsSeen(names, d, v, p);
      CallIsOk(world, v, p);
    }
  }

  lemma CallIsOk(world: World, v: Name, p: Package)
    requires v in world.asked && EventOk(world, Fetch(Some(p)))
    ensures EventsOk(world, UpToPlaced(v, p)) && EventsOk(world, UpToFirstLink(v, p))
  {}

  /** Removing the bin links and the version directory but not `current`, as the uninstall
      instructions have it, makes the next installation of that version unsafe: stopped
      after its first link it leaves a root that reads as incomplete, for good. */
  lemma LeftoverCurrentWedges(d: Disk, v: Name, p: Package, later: seq<Event>)
    requires Wf(d) && Plain(v) && d.agent.Absent? && d.cursorAgent.Absent? && d.current == Some(v)
    requires v !in d.dirs && PackageOk(p, v)
    ensures Inspect(d) == Ok(NotInstalled) && !Quiet(d, v, p)
    ensures var wedged := Run(State(d, Idle, NotInstalled), UpToFirstLink(v, p) + [Crash]);
            Inspect(wedged.disk) == Err(Incomplete) && Run(wedged, later).disk == wedged.disk
  {
    InspectMeans(d);
    ReachesFirstLink(d, v, p);
    RunOn(State(d, Idle, NotInstalled), UpToFirstLink(v, p), Crash);
    LinkedIsIncomplete(d, v, p);
    UnreadableForever(Linked(d, v, p), NotInstalled, later);
  }

  lemma LinkedIsIncomplete(d: Disk, v: Name, p: Package)
    requires Wf(d) && Plain(v) && d.agent.Absent? && d.cursorAgent.Absent? && d.current == Some(v) && PackageOk(p, v)
    ensures Inspect(Linked(d, v, p)) == Err(Incomplete)
  {
    PlacedMeans(d.dirs, v, p);
    VerifiedIsFound(p, v);
    FirstLinkExactly(d.(dirs := PlacedDirs(d.dirs, v, p)), p.rel);
  }

  /** Two dangling direct links wake up when their version is put in place, before the swap:
      inspection then reports an installation that no call has completed. */
  lemma DanglingDirectWakes(d: Disk, v: Name, p: Package)
    requires Wf(d) && Plain(v) && v !in d.dirs && PackageOk(p, v) && d.agent == d.cursorAgent == Direct(v, p.rel)
    ensures Inspect(d) == Ok(NotInstalled)
    ensures var s := Run(State(d, Idle, NotInstalled), UpToPlaced(v, p));
            Inspect(s.disk) == Ok(Installed(v, RealBin(p))) && s.stands == NotInstalled
  {
    InspectMeans(d);
    ReachesPlaced(d, v, p);
    PlacedMeans(d.dirs, v, p);
    var d' := d.(dirs := PlacedDirs(d.dirs, v, p));
    WalkBudget(TreeView(p.tree), [], p.rel, KERNEL_LINKS, EVAL_LINKS);
    WalkBudget(TreeView(p.tree), [], p.rel, KERNEL_LINKS, EVAL_LINKS - 1);
    TreeWalkCanonical(p.tree, p.rel, KERNEL_LINKS);
    StandsMeans(World({}, {}, iset{}), d', Installed(v, RealBin(p)));
  }
}
