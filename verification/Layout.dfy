/** The managed install root: version directories, the `current` link and the two bin
    links, how they resolve, and how an installation is read back from them. */
module Layout {
  import opened Wrappers
  import opened Paths
  import opened Resolve

  type Name = string

  /** The contents of one version directory, by path inside it. */
  type Tree = map<Path, Node>

  /** A stable link under .local/bin: missing, a legacy link straight into a version
      directory, or a link through `current`. */
  datatype BinLink = Absent | Direct(version: Name, rel: Path) | ViaCurrent(rel: Path)

  /** A managed root at some absolute path, and what is in it. */
  datatype Disk = Disk(home: Path, dirs: map<Name, Tree>, current: Option<Name>, agent: BinLink, cursorAgent: BinLink) {
    function Local(): Path { home + [".local"] }
    function Bin(): Path { home + [".local", "bin"] }
    function Share(): Path { home + [".local", "share", "cursor-agent"] }
    function Versions(): Path { home + [".local", "share", "cursor-agent", "versions"] }
    function Current(): Path { home + [".local", "share", "cursor-agent", "current"] }
    function VersionDir(v: Name): Path { Versions() + [v] }
  }

  // ---------------------------------------------------------------- the file system view

  /** The text of a bin link: filepath.Rel from the bin directory. */
  function LinkText(d: Disk, b: BinLink): Path
    requires !b.Absent?
  {
    match b
    case Direct(v, r) => Rel(d.Bin(), d.VersionDir(v) + r)
    case ViaCurrent(r) => Rel(d.Bin(), d.Current() + r)
  }

  function BinNode(d: Disk, b: BinLink): Option<Node> {
    if b.Absent? then None else Some(Link(Target(false, LinkText(d, b))))
  }

  function TreeView(t: Tree): View { (p: Path) => if p in t then Some(t[p]) else None }

  function DiskNode(d: Disk, p: Path): Option<Node> {
    var vs := d.Versions();
    if p == d.Bin() + ["agent"] then BinNode(d, d.agent)
    else if p == d.Bin() + ["cursor-agent"] then BinNode(d, d.cursorAgent)
    else if p == d.Current() then
      if d.current.Some? then Some(Link(Target(false, ["versions", d.current.value]))) else None
    else if p == d.Bin() || p <= vs then Some(Dir)
    else if vs < p && p[|vs|] in d.dirs then
      if |p| == |vs| + 1 then Some(Dir) else TreeView(d.dirs[p[|vs|]])(p[|vs| + 1..])
    else None
  }

  function DiskView(d: Disk): View { (p: Path) => DiskNode(d, p) }

  // ---------------------------------------------------------------- well-formed roots

  /** Version directories hold extracted archives: their links are tame. */
  ghost predicate TameTree(t: Tree) {
    forall p :: p in t && t[p].Link? ==> Tame(t[p].target) && forall c :: c in t[p].target.comps ==> NoSlash(c)
  }

  ghost predicate RelOk(r: Path) { r != [] && AllPlain(r) }

  ghost predicate BinOk(b: BinLink) {
    match b case Absent => true case Direct(v, r) => Plain(v) && RelOk(r) case ViaCurrent(r) => RelOk(r)
  }

  ghost predicate DirsOk(dirs: map<Name, Tree>) {
    forall v :: v in dirs ==> Plain(v) && TameTree(dirs[v])
  }

  ghost predicate Wf(d: Disk) {
    && AllPlain(d.home) && DirsOk(d.dirs) && BinOk(d.agent) && BinOk(d.cursorAgent)
    && (d.current.Some? ==> Plain(d.current.value))
  }

  // ---------------------------------------------------------------- how bin links resolve

  /** Resolution of a path inside a version directory. */
  function InTree(d: Disk, v: Name, r: Path, links: nat): Outcome {
    if v in d.dirs then Lift(d.VersionDir(v), Walk(TreeView(d.dirs[v]), [], r, links)) else NotExist
  }

  /** What a bin link leads to: the link itself costs one link, `current` another. */
  function BinResolves(d: Disk, b: BinLink): Outcome {
    Leads(d, b, EVAL_LINKS - 1)
  }

  function Leads(d: Disk, b: BinLink, links: nat): Outcome {
    match b
    case Absent => NotExist
    case Direct(v, r) => InTree(d, v, r, links)
    case ViaCurrent(r) =>
      if d.current.None? then NotExist
      else if links == 0 then TooManyLinks
      else InTree(d, d.current.value, r, links - 1)
  }

  /** Where a bin link's text goes: up to .local, down to the share directory, and on. */
  function UpAndDown(b: BinLink): Path
    requires !b.Absent?
  {
    ["..", "share", "cursor-agent"] + ((if b.Direct? then ["versions", b.version] else ["current"]) + b.rel)
  }

  lemma {:induction false} CommonPrefixIs(a: Path, b: Path, m: nat)
    requires m < |a| && m < |b| && a[..m] == b[..m] && a[m] != b[m]
    ensures CommonPrefix(a, b) == m
    decreases m
  {
    if m > 0 {
      assert a[0] == a[..m][0] == b[..m][0] == b[0];
      assert a[1..][..m - 1] == a[..m][1..] && b[1..][..m - 1] == b[..m][1..];
      CommonPrefixIs(a[1..], b[1..], m - 1);
    }
  }

  lemma RelSteps(home: Path, rest: Path)
    requires rest != [] && rest[0] == "share"
    ensures Rel(home + [".local", "bin"], home + [".local"] + rest) == [".."] + rest
  {
    var a, b := home + [".local", "bin"], home + [".local"] + rest;
    var n := CommonPrefix(a, b);
    var m := |home| + 1;
    assert a[m] == "bin" && b[m] == "share";
    assert a[..m] == home + [".local"] == b[..m];
    CommonPrefixIs(a, b, m);
    assert b[m..] == rest;
    assert Parents(1) == [".."];
  }

  /** The bin-link text computed with Rel leaves the bin directory and comes back down
      the share directory. */
  lemma LinkTextIs(d: Disk, b: BinLink)
    requires !b.Absent?
    ensures LinkText(d, b) == UpAndDown(b)
  {
    var rest := ["share", "cursor-agent"] + ((if b.Direct? then ["versions", b.version] else ["current"]) + b.rel);
    RelSteps(d.home, rest);
    assert d.home + [".local"] + rest == if b.Direct? then d.VersionDir(b.version) + b.rel else d.Current() + b.rel;
    assert [".."] + rest == UpAndDown(b);
  }

  lemma StaticDirs(d: Disk)
    ensures DiskView(d)(d.Local()) == Some(Dir) && DiskView(d)(d.Bin()) == Some(Dir)
    ensures DiskView(d)(d.Local() + ["share"]) == Some(Dir) && DiskView(d)(d.Share()) == Some(Dir)
    ensures DiskView(d)(d.Versions()) == Some(Dir)
    ensures forall i :: 0 <= i <= |d.home| ==> DiskView(d)(d.home[..i]) == Some(Dir)
  {
    var vs, n := d.Versions(), |d.home|;
    assert d.Local() == vs[..n + 1] && d.Local() + ["share"] == vs[..n + 2] && d.Share() == vs[..n + 3];
    assert d.Current()[n + 3] == "current" && vs[n + 3] == "versions";
    assert vs[n + 1] == "share" && d.Bin()[n + 1] == "bin";
    forall i | 0 <= i <= n ensures DiskView(d)(d.home[..i]) == Some(Dir) { assert d.home[..i] == vs[..i]; }
  }

  /** Below a version directory the disk is that directory's tree. */
  lemma VersionView(d: Disk, v: Name)
    requires Wf(d) && v in d.dirs
    ensures DiskView(d)(d.VersionDir(v)) == Some(Dir)
    ensures forall q: Path :: q != [] ==> DiskView(d)(d.VersionDir(v) + q) == TreeView(d.dirs[v])(q)
    ensures TameBelow(DiskView(d), d.VersionDir(v))
  {
    var vs, base := d.Versions(), d.VersionDir(v);
    var n := |d.home|;
    assert vs < base && base[|vs|] == v && vs[n + 1] == "share" && d.Bin()[n + 1] == "bin" &&
        d.Current()[n + 3] == "current";
    assert |base| > |d.Bin()| + 1 && base[n + 3] == "versions";
    forall q: Path | q != [] ensures DiskView(d)(base + q) == TreeView(d.dirs[v])(q) {
      var p := base + q;
      assert vs < p && p[|vs|] == v && p[|vs| + 1..] == q && p[n + 1] == "share" && p[n + 3] == "versions";
    }
  }

  /** From the versions directory, a version name and a path in it. */
  lemma FromVersions(d: Disk, v: Name, r: Path, links: nat)
    requires Wf(d) && Plain(v) && AllPlain(r)
    ensures Walk(DiskView(d), d.Versions(), [v] + r, links) == InTree(d, v, r, links)
  {
    var look := DiskView(d);
    var vs, base := d.Versions(), d.VersionDir(v);
    assert ([v] + r)[0] == v && ([v] + r)[1..] == r;
    if v in d.dirs {
      VersionView(d, v);
      assert base + [] == base;
      WalkBelow(look, base, TreeView(d.dirs[v]), [], r, links);
    } else {
      assert vs < base && base[|vs|] == v && base[|d.home| + 3] == "versions" && d.Current()[|d.home| + 3] == "current";
      assert look(base) == None;
    }
  }

  /** From the share directory down to the versions, or through `current`. */
  lemma FromShare(d: Disk, v: Name, r: Path, links: nat)
    requires Wf(d) && Plain(v) && AllPlain(r)
    ensures Walk(DiskView(d), d.Share(), ["versions", v] + r, links) == InTree(d, v, r, links)
  {
    StaticDirs(d);
    assert (["versions", v] + r)[1..] == [v] + r;
    assert d.Share() + ["versions"] == d.Versions();
    FromVersions(d, v, r, links);
  }

  lemma CurrentView(d: Disk)
    ensures DiskView(d)(d.Current()) ==
            if d.current.Some? then Some(Link(Target(false, ["versions", d.current.value]))) else None
  {
    assert d.Current()[|d.home| + 1] == "share" && d.Bin()[|d.home| + 1] == "bin";
  }

  lemma ThroughCurrent(d: Disk, r: Path, links: nat)
    requires Wf(d) && AllPlain(r) && links > 0
    ensures Walk(DiskView(d), d.Share(), ["current"] + r, links) ==
            if d.current.None? then NotExist else InTree(d, d.current.value, r, links - 1)
  {
    CurrentView(d);
    assert (["current"] + r)[1..] == r && d.Share() + ["current"] == d.Current();
    if d.current.Some? {
      FromShare(d, d.current.value, r, links - 1);
    }
  }

  /** From the bin directory, up and down to the share directory. */
  lemma FromBin(d: Disk, rest: Path, links: nat)
    ensures Walk(DiskView(d), d.Bin(), ["..", "share", "cursor-agent"] + rest, links) ==
            Walk(DiskView(d), d.Share(), rest, links)
  {
    var look := DiskView(d);
    StaticDirs(d);
    var full := ["..", "share", "cursor-agent"] + rest;
    assert full[1..] == ["share", "cursor-agent"] + rest;
    assert (["share", "cursor-agent"] + rest)[1..] == ["cursor-agent"] + rest;
    assert (["cursor-agent"] + rest)[1..] == rest;
    assert Up(d.Bin()) == d.Local();
    assert d.Local() + ["share"] + ["cursor-agent"] == d.Share();
    calc {
      Walk(look, d.Bin(), full, links);
      Walk(look, d.Local(), ["share", "cursor-agent"] + rest, links);
      Walk(look, d.Local() + ["share"], ["cursor-agent"] + rest, links);
      Walk(look, d.Share(), rest, links);
    }
  }

  lemma BinDir(d: Disk)
    requires AllPlain(d.home)
    ensures CanonicalDir(DiskView(d), d.Bin())
  {
    StaticDirs(d);
    var bin, n := d.Bin(), |d.home|;
    forall i | 1 <= i < |bin| ensures DiskView(d)(bin[..i]) == Some(Dir) {
      assert bin[..i] == if i <= n then d.home[..i] else d.Local();
    }
    forall i | 0 <= i < |bin| ensures Plain(bin[i]) {
      if i < n { assert bin[i] == d.home[i]; }
    }
  }

  /** From the bin directory, the link text resolves as BinResolves says. */
  lemma BinTextResolves(d: Disk, b: BinLink, links: nat)
    requires Wf(d) && BinOk(b) && !b.Absent? && links > 0
    ensures Walk(DiskView(d), d.Bin(), UpAndDown(b), links) == Leads(d, b, links)
  {
    match b {
      case Direct(v, r) =>
        FromBin(d, ["versions", v] + r, links);
        FromShare(d, v, r, links);
      case ViaCurrent(r) =>
        FromBin(d, ["current"] + r, links);
        ThroughCurrent(d, r, links);
    }
  }

  lemma BinEntry(d: Disk, name: Comp, b: BinLink, links: nat)
    requires Wf(d) && links > 1 && Plain(name) && BinOk(b)
    requires DiskView(d)(d.Bin() + [name]) == if b.Absent? then None else Some(Link(Target(false, UpAndDown(b))))
    ensures Walk(DiskView(d), [], d.Bin() + [name], links) == Leads(d, b, links - 1)
  {
    BinDir(d);
    WalkToEntry(DiskView(d), d.Bin(), name, links);
    if !b.Absent? { BinTextResolves(d, b, links - 1); }
  }

  /** A bin link, given the name it is stored under, resolves as BinResolves says. */
  lemma BinLinkResolves(d: Disk, name: Comp, b: BinLink)
    requires Wf(d)
    requires (name == "agent" && b == d.agent) || (name == "cursor-agent" && b == d.cursorAgent)
    ensures EvalSymlinks(DiskView(d), d.Bin() + [name]) == BinResolves(d, b)
  {
    assert (d.Bin() + ["agent"])[|d.home| + 2] == "agent" &&
        (d.Bin() + ["cursor-agent"])[|d.home| + 2] == "cursor-agent";
    assert |"agent"| != |"cursor-agent"|;
    if !b.Absent? { LinkTextIs(d, b); }
    BinEntry(d, name, b, EVAL_LINKS);
  }

  // ---------------------------------------------------------------- reading an installation back

  datatype InspectError = Unresolvable | Incomplete | Escapes | NoVersion | Mixed

  datatype Install = NotInstalled | Installed(version: Name, rel: Path)

  function ManagedVersionAndArchiveRel(root: Path, resolved: Path): Result<(Name, Path), InspectError> {
    var rel := Rel(root, resolved);
    if rel == [] || rel[0] == ".." then Err(Escapes)
    else if |rel| < 2 then Err(NoVersion)
    else Ok((rel[0], rel[1..]))
  }

  /** It inverts joining the versions root, a version and a path, and rejects exactly
      the paths that are not at least two components below the root. */
  lemma {:induction false} ManagedSplitExact(root: Path, resolved: Path)
    requires AllPlain(resolved)
    ensures var m := ManagedVersionAndArchiveRel(root, resolved);
            && (m.Ok? <==> root <= resolved && |resolved| >= |root| + 2)
            && (m.Ok? ==> resolved == root + [m.value.0] + m.value.1 && m.value.1 != [])
            && (m == Err(NoVersion) <==> root <= resolved && |resolved| == |root| + 1)
  {
    var n := CommonPrefix(root, resolved);
    if root <= resolved {
      assert n == |root|;
      assert Parents(0) == [];
      assert Rel(root, resolved) == resolved[n..];
      if n < |resolved| { assert Plain(resolved[n]); }
    } else {
      assert root[..|root|] == root;
      assert n < |root|;
      assert Rel(root, resolved)[0] == "..";
    }
  }

  lemma ManagedSplitInverts(root: Path, v: Name, r: Path)
    requires Plain(v) && RelOk(r) && AllPlain(root)
    ensures ManagedVersionAndArchiveRel(root, root + [v] + r) == Ok((v, r))
  {
    var p := root + [v] + r;
    assert AllPlain(p) by {
      forall i | 0 <= i < |p| ensures Plain(p[i]) {
        if i > |root| { assert p[i] == r[i - |root| - 1]; }
      }
    }
    ManagedSplitExact(root, p);
    var m := ManagedVersionAndArchiveRel(root, p).value;
    assert p[|root|] == v == m.0;
    assert p[|root| + 1..] == r == m.1;
  }

  function InspectOutcomes(versions: Path, a: Outcome, c: Outcome): Result<Install, InspectError> {
    if a.NotDir? || a.TooManyLinks? || c.NotDir? || c.TooManyLinks? then Err(Unresolvable)
    else if a.NotExist? && c.NotExist? then Ok(NotInstalled)
    else if a.NotExist? || c.NotExist? then Err(Incomplete)
    else
      match ManagedVersionAndArchiveRel(versions, a.path)
      case Err(e) => Err(e)
      case Ok(first) =>
        match ManagedVersionAndArchiveRel(versions, c.path)
        case Err(e) => Err(e)
        case Ok(second) => if first != second then Err(Mixed) else Ok(Installed(first.0, first.1))
  }

  function Inspect(d: Disk): Result<Install, InspectError> {
    InspectOutcomes(d.Versions(), EvalSymlinks(DiskView(d), d.Bin() + ["agent"]),
                    EvalSymlinks(DiskView(d), d.Bin() + ["cursor-agent"]))
  }

  /** inspectManagedInstall: the loop over the two links. */
  method InspectManagedInstall(d: Disk) returns (r: Result<Install, InspectError>)
    ensures r == Inspect(d)
  {
    var links := [d.Bin() + ["agent"], d.Bin() + ["cursor-agent"]];
    ghost var out := [EvalSymlinks(DiskView(d), links[0]), EvalSymlinks(DiskView(d), links[1])];
    var resolved: seq<Path> := [];
    var missing := 0;
    for i := 0 to |links|
      invariant |resolved| + missing == i
      invariant forall k :: 0 <= k < i ==> out[k].Found? || out[k].NotExist?
      invariant missing == (if i > 0 && out[0].NotExist? then 1 else 0) + (if i > 1 && out[1].NotExist? then 1 else 0)
      invariant missing == 0 ==> forall k :: 0 <= k < i ==> out[k] == Found(resolved[k])
    {
      var p := EvalSymlinks(DiskView(d), links[i]);
      assert p == out[i];
      match p {
        case Found(q) => resolved := resolved + [q];
        case NotExist => missing := missing + 1;
        case _ => return Err(Unresolvable);
      }
    }
    if missing == |links| { return Ok(NotInstalled); }
    if missing > 0 { return Err(Incomplete); }
    var state := NotInstalled;
    for i := 0 to |resolved|
      invariant i > 0 ==> ManagedVersionAndArchiveRel(d.Versions(), resolved[0]).Ok?
      invariant i > 0 ==>
                  var m := ManagedVersionAndArchiveRel(d.Versions(), resolved[0]).value; state == Installed(m.0, m.1)
      invariant i > 1 ==>
                  ManagedVersionAndArchiveRel(d.Versions(), resolved[1]) ==
                  ManagedVersionAndArchiveRel(d.Versions(), resolved[0])
    {
      var m := ManagedVersionAndArchiveRel(d.Versions(), resolved[i]);
      if m.Err? { return Err(m.error); }
      if i == 0 {
        state := Installed(m.value.0, m.value.1);
      } else if m.value.0 != state.version || m.value.1 != state.rel {
        return Err(Mixed);
      }
    }
    return Ok(state);
  }

  // ---------------------------------------------------------------- inspection, by what the links are

  /** The path, inside a version directory, that a bin link's target really names. */
  function RealPath(t: Tree, r: Path, links: nat): Option<Path> {
    var w := Walk(TreeView(t), [], r, links);
    if w.Found? then Some(w.path) else None
  }

  /** Where a bin link leads, when it leads into a version directory. */
  ghost predicate LeadsTo(d: Disk, b: BinLink, v: Name, q: Path) {
    BinResolves(d, b) == Found(d.VersionDir(v) + q)
  }

  lemma TreeWalkCanonical(t: Tree, r: Path, links: nat)
    requires TameTree(t) && AllPlain(r)
    ensures var w := Walk(TreeView(t), [], r, links); w.Found? ==> Canonical(TreeView(t), w.path)
    ensures var w := Walk(TreeView(t), [], r, links); w.Found? && r != [] ==> Walk(TreeView(t), [], w.path, 0) == w
  {
    var look := TreeView(t);
    assert SplitLinks(look);
    forall c | c in r ensures NoSlash(c) { var i :| 0 <= i < |r| && r[i] == c; }
    WalkCanonical(look, [], r, links);
    var w := Walk(look, [], r, links);
    if w.Found? { WalkFixesCanonical(look, w.path, 0); }
  }

  lemma BinFound(d: Disk, b: BinLink)
    requires Wf(d) && BinOk(b) && BinResolves(d, b).Found?
    ensures exists v, q :: v in d.dirs && AllPlain(q) && LeadsTo(d, b, v, q)
  {
    var v := if b.Direct? then b.version else d.current.value;
    var n := if b.Direct? then 254 else 253;
    TreeWalkCanonical(d.dirs[v], b.rel, n);
    var q := Walk(TreeView(d.dirs[v]), [], b.rel, n).path;
    assert LeadsTo(d, b, v, q);
  }

  /** The verdicts of the inspection, read on where the two links lead. */
  lemma InspectMeans(d: Disk)
    requires Wf(d)
    ensures Inspect(d) == InspectLinks(d)
    ensures Inspect(d) == Ok(NotInstalled) <==>
            BinResolves(d, d.agent).NotExist? && BinResolves(d, d.cursorAgent).NotExist?
    ensures forall v, q :: Plain(v) && RelOk(q) ==>
            (Inspect(d) == Ok(Installed(v, q)) <==> LeadsTo(d, d.agent, v, q) && LeadsTo(d, d.cursorAgent, v, q))
    ensures Inspect(d).Ok? && Inspect(d).value.Installed? ==>
            Inspect(d).value.version in d.dirs && RelOk(Inspect(d).value.rel)
  {
    BinLinkResolves(d, "agent", d.agent);
    BinLinkResolves(d, "cursor-agent", d.cursorAgent);
    forall v, q | Plain(v) && RelOk(q)
      ensures Inspect(d) == Ok(Installed(v, q)) <==> LeadsTo(d, d.agent, v, q) && LeadsTo(d, d.cursorAgent, v, q)
    {
      InspectInstalled(d, v, q);
    }
    if Inspect(d).Ok? && Inspect(d).value.Installed? { InspectedVersion(d); }
  }

  /** The inspection, read on where the two links lead. */
  function InspectLinks(d: Disk): Result<Install, InspectError> {
    InspectOutcomes(d.Versions(), BinResolves(d, d.agent), BinResolves(d, d.cursorAgent))
  }

  lemma InspectedVersion(d: Disk)
    requires Wf(d) && InspectLinks(d).Ok? && InspectLinks(d).value.Installed?
    ensures var i := InspectLinks(d);
            && i.value.version in d.dirs && RelOk(i.value.rel)
            && LeadsTo(d, d.agent, i.value.version, i.value.rel)
            && LeadsTo(d, d.cursorAgent, i.value.version, i.value.rel)
  {
    BinFound(d, d.agent);
    BinFound(d, d.cursorAgent);
    var v, q :| v in d.dirs && AllPlain(q) && LeadsTo(d, d.agent, v, q);
    var v2, q2 :| v2 in d.dirs && AllPlain(q2) && LeadsTo(d, d.cursorAgent, v2, q2);
    SplitOfLead(d, v, q);
    SplitOfLead(d, v2, q2);
  }

  lemma SplitOfLead(d: Disk, v: Name, q: Path)
    requires Wf(d) && Plain(v) && AllPlain(q)
    ensures ManagedVersionAndArchiveRel(d.Versions(), d.VersionDir(v) + q) == if q == []
            then Err(NoVersion) else Ok((v, q))
  {
    var vs := d.Versions();
    assert AllPlain(vs);
    if q == [] {
      var p := d.VersionDir(v) + q;
      assert p == vs + [v];
      ManagedSplitExact(vs, p);
    } else {
      ManagedSplitInverts(vs, v, q);
    }
  }

  lemma InspectInstalled(d: Disk, v: Name, q: Path)
    requires Wf(d) && Plain(v) && RelOk(q)
    ensures InspectLinks(d) == Ok(Installed(v, q)) <==>
            LeadsTo(d, d.agent, v, q) && LeadsTo(d, d.cursorAgent, v, q)
  {
    var i := InspectLinks(d);
    if i == Ok(Installed(v, q)) { InspectedVersion(d); }
    if LeadsTo(d, d.agent, v, q) && LeadsTo(d, d.cursorAgent, v, q) { SplitOfLead(d, v, q); }
  }

  // ---------------------------------------------------------------- the errors of inspection

  /** When inspection fails: a link that cannot be resolved comes first, then one link without
      the other; else both lead somewhere, into a version directory itself, or to different
      versions or paths. Nothing in a well-formed root escapes. */
  lemma InspectErrors(d: Disk)
    requires Wf(d)
    ensures var a, c := BinResolves(d, d.agent), BinResolves(d, d.cursorAgent);
            && (Inspect(d) == Err(Unresolvable) <==>
                  a.NotDir? || a.TooManyLinks? || c.NotDir? || c.TooManyLinks?)
            && (Inspect(d) == Err(Incomplete) <==> (a.Found? && c.NotExist?) || (a.NotExist? && c.Found?))
            && (Inspect(d) == Err(NoVersion) <==>
                a.Found? && c.Found? && (IsVersionDir(d, a.path) || IsVersionDir(d, c.path)))
            && (Inspect(d) == Err(Mixed) <==>
                  a.Found? && c.Found? && a != c && !IsVersionDir(d, a.path) && !IsVersionDir(d, c.path))
            && Inspect(d) != Err(Escapes)
  {
    InspectMeans(d);
    if BinResolves(d, d.agent).Found? { FoundSplits(d, d.agent); }
    if BinResolves(d, d.cursorAgent).Found? { FoundSplits(d, d.cursorAgent); }
  }

  ghost predicate IsVersionDir(d: Disk, p: Path) { exists v :: v in d.dirs && p == d.VersionDir(v) }

  lemma FoundSplits(d: Disk, b: BinLink)
    requires Wf(d) && BinOk(b) && BinResolves(d, b).Found?
    ensures var p := BinResolves(d, b).path; var m := ManagedVersionAndArchiveRel(d.Versions(), p);
            if IsVersionDir(d, p) then m == Err(NoVersion)
            else m.Ok? && p == d.VersionDir(m.value.0) + m.value.1
  {
    BinFound(d, b);
    var v, q :| v in d.dirs && AllPlain(q) && LeadsTo(d, b, v, q);
    SplitOfLead(d, v, q);
    var p := d.VersionDir(v) + q;
    if q == [] {
      assert p == d.VersionDir(v);
    } else {
      forall w | w in d.dirs ensures p != d.VersionDir(w) { assert |p| > |d.VersionDir(w)|; }
    }
  }
}
