/** What every step of the installer keeps. */
module InstallSafety {
  import opened Wrappers
  import opened Paths
  import opened Resolve
  import opened Layout
  import opened InstallMachine

  // ---------------------------------------------------------------- what may happen

  /** What a root may meet: the version names that occur, those that are asked for, and the
      packages that may get past the checks of a call for a version. */
  datatype World = World(names: set<Name>, asked: set<Name>, offers: iset<(Name, Package)>)

  /** No version is named like another one's staging or backup directory. */
  ghost predicate NoSiblings(names: set<Name>) {
    forall v, w :: v in names && w in names ==> v != Staged(w) && v != BackupOf(w)
  }

  ghost predicate NamesOk(names: set<Name>) {
    NoSiblings(names) && forall v :: v in names ==> Plain(v)
  }

  /** What an accepted archive is: tame links, and a plain path to the binary. */
  ghost predicate Genuine(p: Package) { TameTree(p.tree) && RelOk(p.rel) }

  ghost predicate PackageOk(p: Package, v: Name) {
    Genuine(p) && Verified(p.tree, p.rel, v) && Validates(p.tree, p.rel)
  }

  ghost predicate OffersOk(world: World) {
    forall v, p :: Offered(world, v, p) ==> v in world.names && PackageOk(p, v)
  }

  ghost predicate WorldOk(world: World) {
    NamesOk(world.names) && world.asked <= world.names && OffersOk(world)
  }

  ghost predicate Offered(world: World, v: Name, p: Package) { (v, p) in world.offers }

  // ---------------------------------------------------------------- what a root stands for

  /** A bin link into a version directory, directly or through `current`, whose path
      really is q there. */
  ghost predicate LinkIn(d: Disk, b: BinLink, v: Name, q: Path) {
    && v in d.dirs
    && match b
       case Absent => false
       case Direct(w, r) => w == v && RealPath(d.dirs[v], r, EVAL_LINKS - 1) == Some(q)
       case ViaCurrent(r) => d.current == Some(v) && RealPath(d.dirs[v], r, EVAL_LINKS - 2) == Some(q)
  }

  ghost predicate InstalledAt(d: Disk, v: Name, q: Path) {
    RelOk(q) && LinkIn(d, d.agent, v, q) && LinkIn(d, d.cursorAgent, v, q)
  }

  ghost predicate Missing(t: Tree, r: Path, links: nat) { Walk(TreeView(t), [], r, links).NotExist? }

  /** A direct link into the version stays dangling when the tree is put there. */
  ghost predicate StaysDangling(b: BinLink, v: Name, t: Tree) {
    b.Direct? && b.version == v ==> Missing(t, b.rel, EVAL_LINKS - 1)
  }

  /** Installing the package brings nothing to life before its last step: no direct link
      finds anything in its tree, and `current`, if it is there, names another version, one
      in which the package's path leads nowhere. */
  ghost predicate Quiet(d: Disk, v: Name, p: Package) {
    && StaysDangling(d.agent, v, p.tree) && StaysDangling(d.cursorAgent, v, p.tree)
    && match d.current
       case None => true
       case Some(c) => c != v && (c in d.dirs ==> Missing(d.dirs[c], p.rel, EVAL_LINKS - 2))
  }

  /** The versions that links name are among the names that occur. */
  ghost predicate LinksNamed(world: World, d: Disk) {
    && (d.agent.Direct? ==> d.agent.version in world.names)
    && (d.cursorAgent.Direct? ==> d.cursorAgent.version in world.names)
    && (d.current.Some? ==> d.current.value in world.names)
  }

  ghost predicate Calm(world: World, d: Disk) {
    forall v, p :: Offered(world, v, p) ==> Quiet(d, v, p)
  }

  /** Nothing is installed, and no call brings anything to life before its last step. */
  ghost predicate Dormant(world: World, d: Disk) {
    && BinResolves(d, d.agent).NotExist? && BinResolves(d, d.cursorAgent).NotExist?
    && LinksNamed(world, d) && Calm(world, d)
  }

  ghost predicate Stands(world: World, d: Disk, i: Install) {
    match i
    case NotInstalled => Dormant(world, d)
    case Installed(v, q) => InstalledAt(d, v, q)
  }

  ghost predicate Root(world: World, d: Disk, i: Install) {
    Wf(d) && Stands(world, d, i) && (i.Installed? ==> i.version in world.names)
  }

  lemma LinkInLeads(d: Disk, b: BinLink, v: Name, q: Path)
    ensures LinkIn(d, b, v, q) ==> LeadsTo(d, b, v, q)
    ensures LeadsTo(d, b, v, q) ==> LinkIn(d, b, v, q)
  {
    if LeadsTo(d, b, v, q) {
      var w := if b.Direct? then b.version else if d.current.Some? then d.current.value else v;
      var o := BinResolves(d, b);
      assert w in d.dirs;
      assert o.path[|d.Versions()|] == w && (d.VersionDir(v) + q)[|d.Versions()|] == v;
      var n := if b.Direct? then EVAL_LINKS - 1 else EVAL_LINKS - 2;
      var p := Walk(TreeView(d.dirs[v]), [], b.rel, n).path;
      var base := d.VersionDir(v);
      assert base + p == base + q;
      assert (base + p)[|base|..] == p && (base + q)[|base|..] == q;
    }
  }

  /** Inspection reads back exactly what the root stands for. */
  lemma StandsMeans(world: World, d: Disk, i: Install)
    requires Wf(d) && Stands(world, d, i)
    ensures Inspect(d) == Ok(i)
  {
    InspectMeans(d);
    if i.Installed? {
      LinkInLeads(d, d.agent, i.version, i.rel);
      LinkInLeads(d, d.cursorAgent, i.version, i.rel);
    }
  }

  /** Whatever mix of direct and indirect links makes inspection report a version, the
      root stands for it. */
  lemma InspectedStands(d: Disk)
    requires Wf(d) && Inspect(d).Ok? && Inspect(d).value.Installed?
    ensures InstalledAt(d, Inspect(d).value.version, Inspect(d).value.rel)
  {
    InspectMeans(d);
    var v, q := Inspect(d).value.version, Inspect(d).value.rel;
    LinkInLeads(d, d.agent, v, q);
    LinkInLeads(d, d.cursorAgent, v, q);
  }

  // ---------------------------------------------------------------- single changes of the root

  ghost predicate SameAt(dirs: map<Name, Tree>, was: map<Name, Tree>, n: Name) {
    (n in dirs <==> n in was) && (n in dirs ==> dirs[n] == was[n])
  }

  /** Changing directories other than the installed one is not seen. */
  lemma DirsElsewhere(d: Disk, dirs': map<Name, Tree>, v: Name, q: Path)
    requires InstalledAt(d, v, q) && v in dirs' && dirs'[v] == d.dirs[v]
    ensures InstalledAt(d.(dirs := dirs'), v, q)
  {}

  /** Pointing `current` at the installed version is not seen: links that go through it
      already found it there. */
  lemma PointCurrent(d: Disk, v: Name, q: Path)
    requires InstalledAt(d, v, q)
    ensures InstalledAt(d.(current := Some(v)), v, q)
  {}

  /** A resolved path resolves to itself, so a link through `current` to the path that
      was read back leads where the old link led. */
  lemma RelinkAlike(d: Disk, b: BinLink, v: Name, q: Path)
    requires Wf(d) && BinOk(b) && LinkIn(d, b, v, q) && d.current == Some(v)
    ensures LinkIn(d, ViaCurrent(q), v, q)
  {
    var n := if b.Direct? then EVAL_LINKS - 1 else EVAL_LINKS - 2;
    TreeWalkCanonical(d.dirs[v], b.rel, n);
    WalkBudget(TreeView(d.dirs[v]), [], q, 0, EVAL_LINKS - 2);
  }

  lemma Relink(d: Disk, v: Name, q: Path)
    requires Wf(d) && InstalledAt(d, v, q) && d.current == Some(v)
    ensures InstalledAt(d.(agent := ViaCurrent(q)), v, q) && InstalledAt(d.(cursorAgent := ViaCurrent(q)), v, q)
  {
    RelinkAlike(d, d.agent, v, q);
  }

  /** With both links going through `current`, moving it installs the version it names. */
  lemma SwapInstalls(d: Disk, v: Name, p: Package)
    requires Wf(d) && d.agent == d.cursorAgent == ViaCurrent(p.rel) && v in d.dirs && d.dirs[v] == p.tree
    requires PackageOk(p, v)
    ensures InstalledAt(d.(current := Some(v)), v, RealBin(p))
  {
    WalkBudget(TreeView(p.tree), [], p.rel, KERNEL_LINKS, EVAL_LINKS);
    WalkBudget(TreeView(p.tree), [], p.rel, KERNEL_LINKS, EVAL_LINKS - 2);
    TreeWalkCanonical(p.tree, p.rel, KERNEL_LINKS);
  }

  // ---------------------------------------------------------------- directory operations

  lemma SiblingPlain(v: Name)
    requires Plain(v)
    ensures Plain(Staged(v)) && Plain(BackupOf(v))
    ensures v != Staged(v) && v != BackupOf(v) && Staged(v) != BackupOf(v)
  {
    assert Staged(v)[|v| + 1] == 'n' && BackupOf(v)[|v| + 1] == 'o';
  }

  /** Nothing but what was there. */
  ghost predicate Part(t': Tree, t: Tree) { forall p :: p in t' ==> p in t && t'[p] == t[p] }

  lemma RemoveOutside(dirs: map<Name, Tree>, n: Name, keep: Option<set<Path>>)
    ensures forall m :: m != n ==> SameAt(RemoveDir(dirs, n, keep), dirs, m)
  {}

  lemma RenameOutside(dirs: map<Name, Tree>, from: Name, to: Name)
    requires from in dirs
    ensures forall m :: m != from && m != to ==> SameAt(RenameDir(dirs, from, to), dirs, m)
  {}

  lemma RemoveDirOk(dirs: map<Name, Tree>, n: Name, keep: Option<set<Path>>)
    requires DirsOk(dirs)
    ensures var dirs' := RemoveDir(dirs, n, keep);
            && DirsOk(dirs') && (keep.None? ==> n !in dirs')
            && (n in dirs' ==> n in dirs && Part(dirs'[n], dirs[n]))
            && forall m :: m != n ==> SameAt(dirs', dirs, m)
  {}

  lemma RenameDirOk(dirs: map<Name, Tree>, from: Name, to: Name)
    requires DirsOk(dirs) && from in dirs && Plain(to) && from != to
    ensures var dirs' := RenameDir(dirs, from, to);
            && DirsOk(dirs') && from !in dirs' && to in dirs' && dirs'[to] == dirs[from]
            && forall m :: m != from && m != to ==> SameAt(dirs', dirs, m)
  {}

  // ---------------------------------------------------------------- what one call may change

  /** Only the three directories of the version being installed may differ, and no direct
      link is new. */
  ghost predicate Framed(d: Disk, entry: Disk, v: Name) {
    d.home == entry.home && Outside(d.dirs, entry.dirs, v) && NoNewDirect(d, entry)
  }

  ghost predicate NoNewDirect(d: Disk, entry: Disk) {
    (d.agent.Direct? ==> d.agent == entry.agent) && (d.cursorAgent.Direct? ==> d.cursorAgent == entry.cursorAgent)
  }

  ghost predicate Outside(dirs: map<Name, Tree>, was: map<Name, Tree>, v: Name) {
    forall n :: n != v && n != Staged(v) && n != BackupOf(v) ==> SameAt(dirs, was, n)
  }

  /** What lacks entries is found missing alike. */
  lemma MissingShrinks(t: Tree, t': Tree, r: Path, links: nat)
    requires Missing(t, r, links) && Part(t', t)
    ensures Missing(t', r, links)
  {
    assert Grows(TreeView(t'), TreeView(t));
    if !Missing(t', r, links) { WalkGrows(TreeView(t'), TreeView(t), [], r, links); }
  }

  /** Whether links lead nowhere is decided by the directories they name. */
  lemma StillMissing(world: World, d: Disk, v: Name, p: Package, dirs': map<Name, Tree>, b: BinLink)
    requires NamesOk(world.names) && v in world.names && Offered(world, v, p)
    requires Dormant(world, d) && BinResolves(d, b).NotExist?
    requires b.Direct? ==> b.version in world.names
    requires Outside(dirs', d.dirs, v)
    requires v in dirs' ==> StaysDangling(b, v, dirs'[v])
    ensures BinResolves(d.(dirs := dirs'), b).NotExist?
  {
    assert Quiet(d, v, p);
    var u := if b.Direct? then b.version else if d.current.Some? then d.current.value else v;
    assert b.Direct? || (b.ViaCurrent? && d.current.Some?) ==> u == v || SameAt(dirs', d.dirs, u);
  }

  lemma StillCalm(world: World, d: Disk, v: Name, p: Package, dirs': map<Name, Tree>)
    requires NamesOk(world.names) && v in world.names && Offered(world, v, p)
    requires LinksNamed(world, d) && Calm(world, d)
    requires Outside(dirs', d.dirs, v)
    ensures Calm(world, d.(dirs := dirs'))
  {
    assert Quiet(d, v, p);
    forall v2, p2 | Offered(world, v2, p2) ensures Quiet(d.(dirs := dirs'), v2, p2) {
      assert Quiet(d, v2, p2);
      if d.current.Some? { assert SameAt(dirs', d.dirs, d.current.value); }
    }
  }

  /** Any change confined to the job's three directories is not seen, as long as the
      installed version is another one, or dangling links find nothing in what is put there. */
  lemma JobDirs(world: World, d: Disk, i: Install, v: Name, p: Package, entry: Disk, dirs': map<Name, Tree>)
    requires NamesOk(world.names) && v in world.names && Offered(world, v, p)
    requires Root(world, d, i) && Framed(d, entry, v) && DirsOk(dirs')
    requires i.Installed? ==> i.version != v
    requires Outside(dirs', d.dirs, v)
    requires i.NotInstalled? && v in dirs' ==>
               StaysDangling(d.agent, v, dirs'[v]) && StaysDangling(d.cursorAgent, v, dirs'[v])
    ensures var d' := d.(dirs := dirs'); Root(world, d', i) && Framed(d', entry, v)
  {
    forall n | n != v && n != Staged(v) && n != BackupOf(v) ensures SameAt(dirs', entry.dirs, n) {
      assert SameAt(dirs', d.dirs, n) && SameAt(d.dirs, entry.dirs, n);
    }
    match i {
      case Installed(u, q) =>
        assert SameAt(dirs', d.dirs, u);
        DirsElsewhere(d, dirs', u, q);
      case NotInstalled =>
        StillMissing(world, d, v, p, dirs', d.agent);
        StillMissing(world, d, v, p, dirs', d.cursorAgent);
        StillCalm(world, d, v, p, dirs');
    }
  }

  /** A direct link that dangles now dangles in the version's directory as it is. */
  lemma DanglesNow(d: Disk, b: BinLink, v: Name)
    requires BinResolves(d, b).NotExist? && v in d.dirs
    ensures StaysDangling(b, v, d.dirs[v])
  {}

  lemma DanglesLess(b: BinLink, v: Name, t: Tree, t': Tree)
    requires StaysDangling(b, v, t) && Part(t', t)
    ensures StaysDangling(b, v, t')
  {
    if b.Direct? && b.version == v { MissingShrinks(t, t', b.rel, EVAL_LINKS - 1); }
  }

  /** The same when the version's own directory only loses entries. */
  lemma JobDirsLess(world: World, d: Disk, i: Install, v: Name, p: Package, entry: Disk, dirs': map<Name, Tree>)
    requires NamesOk(world.names) && v in world.names && Offered(world, v, p)
    requires Root(world, d, i) && Framed(d, entry, v) && DirsOk(dirs')
    requires i.Installed? ==> i.version != v
    requires Outside(dirs', d.dirs, v)
    requires v in dirs' ==> v in d.dirs && Part(dirs'[v], d.dirs[v])
    ensures var d' := d.(dirs := dirs'); Root(world, d', i) && Framed(d', entry, v)
  {
    if i.NotInstalled? && v in dirs' {
      DanglesNow(d, d.agent, v);
      DanglesNow(d, d.cursorAgent, v);
      DanglesLess(d.agent, v, d.dirs[v], dirs'[v]);
      DanglesLess(d.cursorAgent, v, d.dirs[v], dirs'[v]);
    }
    JobDirs(world, d, i, v, p, entry, dirs');
  }

  /** A link through `current` to an offered package's path is as dead as `current`. */
  lemma DormantRelinked(world: World, d: Disk, v: Name, p: Package)
    requires Dormant(world, d) && Offered(world, v, p)
    ensures Dormant(world, d.(agent := ViaCurrent(p.rel))) && Dormant(world, d.(cursorAgent := ViaCurrent(p.rel)))
  {
    assert Quiet(d, v, p);
    CalmWithFewer(world, d, d.(agent := ViaCurrent(p.rel)));
    CalmWithFewer(world, d, d.(cursorAgent := ViaCurrent(p.rel)));
  }

  /** Taking links away wakes nothing. */
  lemma DormantUnlinked(world: World, d: Disk)
    requires Dormant(world, d)
    ensures Dormant(world, d.(agent := Absent)) && Dormant(world, d.(cursorAgent := Absent))
    ensures Dormant(world, d.(current := None))
  {
    CalmWithFewer(world, d, d.(agent := Absent));
    CalmWithFewer(world, d, d.(cursorAgent := Absent));
    CalmWithFewer(world, d, d.(current := None));
  }

  lemma CalmWithFewer(world: World, d: Disk, d': Disk)
    requires Calm(world, d) && d'.dirs == d.dirs && NoNewDirect(d', d)
    requires d'.current == d.current || d'.current.None?
    ensures Calm(world, d')
  {
    forall v, p | Offered(world, v, p) ensures Quiet(d', v, p) { assert Quiet(d, v, p); }
  }

  /** Replacing a bin link by one through `current` is not seen. */
  lemma LinkUnseen(world: World, d: Disk, i: Install, v: Name, p: Package)
    requires Root(world, d, i) && Offered(world, v, p) && RelOk(p.rel)
    requires i.Installed? ==> d.current == Some(i.version) && i.rel == p.rel
    ensures Root(world, d.(agent := ViaCurrent(p.rel)), i) && Root(world, d.(cursorAgent := ViaCurrent(p.rel)), i)
  {
    match i {
      case Installed(u, q) => Relink(d, u, q);
      case NotInstalled => DormantRelinked(world, d, v, p);
    }
  }

  /** A link that dangled when the call began dangles in the directory put back. */
  lemma DanglesRestored(d: Disk, entry: Disk, v: Name)
    requires BinResolves(entry, entry.agent).NotExist? && BinResolves(entry, entry.cursorAgent).NotExist?
    requires NoNewDirect(d, entry) && v in entry.dirs
    ensures StaysDangling(d.agent, v, entry.dirs[v]) && StaysDangling(d.cursorAgent, v, entry.dirs[v])
  {
    DanglesNow(entry, entry.agent, v);
    DanglesNow(entry, entry.cursorAgent, v);
  }
}
