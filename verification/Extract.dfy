/** Extraction of the downloaded archive: the entry loop with its limits, written on a
    file system in which the symbolic links already extracted are followed. */
module Extract {
  import opened Wrappers
  import opened Paths
  import opened Resolve
  import opened Folds

  /** A whole file system, by absolute path; the root directory is implicit. */
  type Files = map<Path, Node>

  function ViewOf(fs: Files): View { (p: Path) => if p in fs then Some(fs[p]) else None }

  datatype Kind =
    | DirEntry
    | RegEntry(size: int, banner: string)
    | LinkEntry(linkname: string)
    | OtherEntry

  datatype Header = Header(name: string, kind: Kind)

  /** One turn of the tar reader. The flag says whether the operating system let this
      entry be written; a reader error ends the archive. */
  datatype Item = Next(hdr: Header, diskOk: bool) | ReadError

  datatype Limits = Limits(maxEntries: int, maxExpanded: int)

  datatype Error =
    | ReadFailed | TooManyEntries | UnsafePath | Duplicate | TooLarge
    | DiskFailed | UnsafeLink | Unsupported | NoBinary

  datatype Progress = Progress(fs: Files, entries: int, total: int, seen: set<string>, bin: Option<Path>)

  const INT64: int := 0x8000_0000_0000_0000

  /** Go's int64 addition wraps around. */
  function Wrap64(x: int): (r: int)
    ensures -INT64 <= r < INT64
    ensures -INT64 <= x < INT64 ==> r == x
  {
    (x + INT64) % (2 * INT64) - INT64
  }

  // ---------------------------------------------------------------- system calls

  predicate IsDir(fs: Files, p: Path) { p == [] || ViewOf(fs)(p) == Some(Dir) }

  /** mkdir, open with O_CREAT|O_EXCL and symlink: resolve the parent, then add an entry
      that must not exist yet. */
  function Create(fs: Files, p: Path, node: Node): Option<Files>
    requires p != []
  {
    match Walk(ViewOf(fs), [], p[..|p| - 1], KERNEL_LINKS)
    case Found(dir) =>
      if IsDir(fs, dir) && dir + [p[|p| - 1]] !in fs then Some(fs[dir + [p[|p| - 1]] := node]) else None
    case _ => None
  }

  /** os.MkdirAll below a base directory. */
  function MkdirAll(fs: Files, base: Path, comps: Path): Option<Files>
    decreases |comps|
  {
    match Walk(ViewOf(fs), [], base + comps, KERNEL_LINKS)
    case Found(q) => if IsDir(fs, q) then Some(fs) else None
    case _ =>
      if comps == [] then None
      else
        match MkdirAll(fs, base, comps[..|comps| - 1])
        case None => None
        case Some(fs1) => Create(fs1, base + comps, Dir)
  }

  function CreateBelow(fs: Files, base: Path, comps: Path, node: Node): Option<Files>
    requires comps != []
  {
    match MkdirAll(fs, base, comps[..|comps| - 1])
    case None => None
    case Some(fs1) => Create(fs1, base + comps, node)
  }

  // ---------------------------------------------------------------- one entry

  function LinkTarget(linkname: string): Target { Target(Rooted(linkname), Split(linkname)) }

  /** filepath.Join of the entry's directory with the link name. */
  function JoinDir(comps: Path, linkname: string): string
    requires comps != []
  {
    var dir := if |comps| == 1 then "." else Join(comps[..|comps| - 1]);
    if linkname == "" then Clean(dir) else Clean(dir + "/" + linkname)
  }

  predicate LinkAccepted(comps: Path, linkname: string)
    requires comps != []
  {
    SafeArchivePath(JoinDir(comps, linkname)).Ok? && !Rooted(linkname) && !Contains(linkname, "..")
  }

  predicate IsBinaryName(c: Comp) { c == "agent" || c == "cursor-agent" }

  /** An entry whose name passed the archive-path filter. */
  datatype Entry = Entry(name: string, comps: Path, kind: Kind, diskOk: bool)

  function Read(item: Item): Result<Entry, Error> {
    match item
    case ReadError => Err(ReadFailed)
    case Next(hdr, diskOk) =>
      match SafeArchivePath(hdr.name)
      case Err(_) => Err(UnsafePath)
      case Ok(name) => Ok(Entry(name, Split(name), hdr.kind, diskOk))
  }

  function Step(st: Progress, item: Item, base: Path, lim: Limits): Result<Progress, Error> {
    if item.ReadError? then Err(ReadFailed)
    else if lim.maxEntries > 0 && st.entries + 1 > lim.maxEntries then Err(TooManyEntries)
    else
      match Read(item)
      case Err(e) => Err(e)
      case Ok(e) => Admit(st, e, base, lim)
  }

  function Admit(st: Progress, e: Entry, base: Path, lim: Limits): Result<Progress, Error> {
    if e.name in st.seen then Err(Duplicate)
    else Store(st.(entries := st.entries + 1, seen := st.seen + {e.name}), e, base, lim)
  }

  function Written(st: Progress, e: Entry, fs: Option<Files>): Result<Progress, Error> {
    if e.diskOk && fs.Some? then Ok(st.(fs := fs.value)) else Err(DiskFailed)
  }

  function Store(st: Progress, e: Entry, base: Path, lim: Limits): Result<Progress, Error> {
    if e.comps == [] then Err(UnsafePath)
    else
      match e.kind
      case DirEntry => Written(st, e, MkdirAll(st.fs, base, e.comps))
      case RegEntry(size, banner) =>
        var total := Wrap64(st.total + size);
        if lim.maxExpanded > 0 && total > lim.maxExpanded then Err(TooLarge)
        else
          var bin := if IsBinaryName(e.comps[|e.comps| - 1]) then Some(e.comps) else st.bin;
          Written(st.(total := total, bin := bin), e, CreateBelow(st.fs, base, e.comps, File(banner)))
      case LinkEntry(linkname) =>
        if !LinkAccepted(e.comps, linkname) then Err(UnsafeLink)
        else if linkname == "" then Err(DiskFailed)
        else Written(st, e, CreateBelow(st.fs, base, e.comps, Link(LinkTarget(linkname))))
      case OtherEntry => Err(Unsupported)
  }

  function Fold(st: Progress, items: seq<Item>, base: Path, lim: Limits): Result<Progress, Error> {
    TryFold((s: Progress, item: Item) => Step(s, item, base, lim), st, items)
  }

  function Start(fs: Files): Progress { Progress(fs, 0, 0, {}, None) }

  // ---------------------------------------------------------------- what an extraction keeps

  /** Everything that is not strictly below the destination is as it was, and every link
      below it is tame. */
  ghost predicate Contained(fs0: Files, fs: Files, base: Path) {
    && CanonicalDir(ViewOf(fs), base)
    && (forall p: Path :: !(base < p) ==> ViewOf(fs)(p) == ViewOf(fs0)(p))
    && TameBelow(ViewOf(fs), base)
    && SplitLinks(ViewOf(fs))
    && Grows(ViewOf(fs0), ViewOf(fs))
  }

  /** A destination as os.MkdirTemp leaves it: a real directory with nothing in it. */
  ghost predicate FreshDir(fs: Files, base: Path) {
    && CanonicalDir(ViewOf(fs), base)
    && (forall p: Path :: base < p ==> p !in fs)
    && SplitLinks(ViewOf(fs))
  }

  /** Resolving below a contained destination stays below it. */
  lemma ResolveContained(fs0: Files, fs: Files, base: Path, comps: Path)
    requires Contained(fs0, fs, base) && AllPlain(comps)
    ensures var w := Walk(ViewOf(fs), [], base + comps, KERNEL_LINKS); w.Found? ==> base <= w.path
  {
    var look := ViewOf(fs);
    WalkFromRoot(look, base, comps, KERNEL_LINKS);
    Confinement(look, look, base, comps, KERNEL_LINKS);
  }

  lemma AddContained(fs0: Files, fs: Files, base: Path, at: Path, node: Node)
    requires Contained(fs0, fs, base) && base < at && at !in fs
    requires node.Link? ==> Tame(node.target) && forall c :: c in node.target.comps ==> NoSlash(c)
    ensures Contained(fs0, fs[at := node], base) && Grows(ViewOf(fs), ViewOf(fs[at := node]))
  {
    var look, look' := ViewOf(fs), ViewOf(fs[at := node]);
    forall i | 1 <= i < |base| ensures look'(base[..i]) == Some(Dir) { assert look(base[..i]) == Some(Dir); }
    forall p: Path | p != []
      ensures match look'(base + p) case Some(Link(t)) => Tame(t) case _ => true
    {
      if base + p != at { assert look'(base + p) == look(base + p); }
    }
    assert CanonicalDir(look', base);
    assert TameBelow(look', base);
    forall p: Path
      ensures match look'(p) case Some(Link(t)) => (forall c :: c in t.comps ==> NoSlash(c)) case _ => true
    {
      if p != at { assert look'(p) == look(p); }
    }
    assert SplitLinks(look');
    assert Grows(ViewOf(fs0), look');
  }

  /** A file added in a directory that a path resolves to is found under that path. */
  lemma AddedFileIsFound(fs0: Files, fs: Files, base: Path, parent: Path, last: Comp, banner: string)
    requires Contained(fs0, fs, base) && AllPlain(parent) && Plain(last)
    requires var w := Walk(ViewOf(fs), [], base + parent, KERNEL_LINKS);
             w.Found? && base <= w.path && IsDir(fs, w.path) && w.path + [last] !in fs
    ensures var at := Walk(ViewOf(fs), [], base + parent, KERNEL_LINKS).path + [last];
            Walk(ViewOf(fs[at := File(banner)]), [], base + parent + [last], KERNEL_LINKS) == Found(at)
  {
    var at := Walk(ViewOf(fs), [], base + parent, KERNEL_LINKS).path + [last];
    AddContained(fs0, fs, base, at, File(banner));
    var look' := ViewOf(fs[at := File(banner)]);
    WalkGrows(ViewOf(fs), look', [], base + parent, KERNEL_LINKS);
    NamesHaveNoSlash(base, parent, ViewOf(fs));
    WalkThenEntry(look', [], base + parent, last, KERNEL_LINKS);
  }

  /** What creating an entry below the destination does: it lands below it, nothing
      that was there changes, and a new file is found again by the path it was given. */
  lemma CreateContained(fs0: Files, fs: Files, base: Path, comps: Path, node: Node)
    requires Contained(fs0, fs, base) && comps != [] && AllPlain(comps)
    requires node.Link? ==> Tame(node.target) && forall c :: c in node.target.comps ==> NoSlash(c)
    requires Create(fs, base + comps, node).Some?
    ensures var fs' := Create(fs, base + comps, node).value;
            Contained(fs0, fs', base) && Grows(ViewOf(fs), ViewOf(fs'))
    ensures node.File? ==> FileAt(Create(fs, base + comps, node).value, base, comps, node.banner)
  {
    var parent, last := comps[..|comps| - 1], comps[|comps| - 1];
    LastApart(base, comps);
    ResolveContained(fs0, fs, base, parent);
    CreateAdds(fs, base + parent, last, node);
    AddContained(fs0, fs, base, Walk(ViewOf(fs), [], base + parent, KERNEL_LINKS).path + [last], node);
    if node.File? { AddedFileIsFound(fs0, fs, base, parent, last, node.banner); }
  }

  lemma LastApart(base: Path, comps: Path)
    requires comps != []
    ensures base + comps == base + comps[..|comps| - 1] + [comps[|comps| - 1]]
  {}

  lemma CreateAdds(fs: Files, parent: Path, last: Comp, node: Node)
    requires Create(fs, parent + [last], node).Some?
    ensures var w := Walk(ViewOf(fs), [], parent, KERNEL_LINKS);
            && w.Found? && IsDir(fs, w.path) && w.path + [last] !in fs
            && Create(fs, parent + [last], node).value == fs[w.path + [last] := node]
  {
    assert (parent + [last])[..|parent|] == parent;
  }

  lemma NamesHaveNoSlash(base: Path, comps: Path, look: View)
    requires Canonical(look, base) && AllPlain(comps)
    ensures forall c :: c in base + comps ==> NoSlash(c)
  {
    forall c | c in base + comps ensures NoSlash(c) {
      if c in base { var i :| 0 <= i < |base| && base[i] == c; assert Plain(base[i]); }
      else { var i :| 0 <= i < |comps| && comps[i] == c; assert Plain(comps[i]); }
    }
  }

  ghost predicate FileAt(fs: Files, base: Path, comps: Path, banner: string) {
    var w := Walk(ViewOf(fs), [], base + comps, KERNEL_LINKS);
    w.Found? && base < w.path && ViewOf(fs)(w.path) == Some(File(banner))
  }

  lemma {:induction false} MkdirAllContained(fs0: Files, fs: Files, base: Path, comps: Path)
    requires Contained(fs0, fs, base) && AllPlain(comps)
    ensures var r := MkdirAll(fs, base, comps);
            r.Some? ==> Contained(fs0, r.value, base) && Grows(ViewOf(fs), ViewOf(r.value))
    decreases |comps|
  {
    if comps != [] {
      var parent := comps[..|comps| - 1];
      MkdirAllContained(fs0, fs, base, parent);
      if MkdirAll(fs, base, comps) != None && MkdirAll(fs, base, comps) != Some(fs) { MkdirAllMade(fs, base, comps); }
      var below := MkdirAll(fs, base, parent);
      if below.Some? { NextDirContained(fs0, fs, below.value, base, comps); }
    }
  }

  /** MkdirAll leaves the disk alone or makes the last directory after the others. */
  lemma MkdirAllMade(fs: Files, base: Path, comps: Path)
    requires comps != [] && MkdirAll(fs, base, comps).Some? && MkdirAll(fs, base, comps).value != fs
    ensures var below := MkdirAll(fs, base, comps[..|comps| - 1]);
            below.Some? && MkdirAll(fs, base, comps) == Create(below.value, base + comps, Dir)
  {}

  lemma NextDirContained(fs0: Files, fs: Files, below: Files, base: Path, comps: Path)
    requires Contained(fs0, below, base) && Grows(ViewOf(fs), ViewOf(below)) && comps != [] && AllPlain(comps)
    ensures var r := Create(below, base + comps, Dir);
            r.Some? ==> Contained(fs0, r.value, base) && Grows(ViewOf(fs), ViewOf(r.value))
  {
    if Create(below, base + comps, Dir).Some? { CreateContained(fs0, below, base, comps, Dir); }
  }

  lemma CreateBelowContained(fs0: Files, fs: Files, base: Path, comps: Path, node: Node)
    requires Contained(fs0, fs, base) && comps != [] && AllPlain(comps)
    requires node.Link? ==> Tame(node.target) && forall c :: c in node.target.comps ==> NoSlash(c)
    requires CreateBelow(fs, base, comps, node).Some?
    ensures var fs' := CreateBelow(fs, base, comps, node).value;
            Contained(fs0, fs', base) && Grows(ViewOf(fs), ViewOf(fs'))
    ensures node.File? ==> FileAt(CreateBelow(fs, base, comps, node).value, base, comps, node.banner)
  {
    var parent := comps[..|comps| - 1];
    MkdirAllContained(fs0, fs, base, parent);
    CreateContained(fs0, MkdirAll(fs, base, parent).value, base, comps, node);
  }

  lemma AcceptedLinkIsTame(comps: Path, linkname: string)
    requires comps != [] && LinkAccepted(comps, linkname)
    ensures Tame(LinkTarget(linkname))
  {
    if ".." in Split(linkname) { ComponentIsSubstring(linkname, ".."); }
  }

  // ---------------------------------------------------------------- accounting

  /** Declared bytes of the regular files. */
  function Declared(done: seq<Entry>): int {
    if done == [] then 0
    else Declared(done[..|done| - 1]) + (var k := done[|done| - 1].kind; if k.RegEntry? then k.size else 0)
  }

  predicate IsBinary(e: Entry) {
    e.kind.RegEntry? && e.comps != [] && IsBinaryName(e.comps[|e.comps| - 1])
  }

  /** The index of the last regular file named like the agent, or -1. */
  function LastBinary(done: seq<Entry>): (k: int)
    ensures -1 <= k < |done|
    ensures k >= 0 ==> IsBinary(done[k])
    ensures forall i :: k < i < |done| ==> !IsBinary(done[i])
  {
    if done == [] then -1
    else if IsBinary(done[|done| - 1]) then |done| - 1
    else LastBinary(done[..|done| - 1])
  }

  ghost predicate NamesHandled(st: Progress, done: seq<Entry>, lim: Limits) {
    && st.entries == |done| && (lim.maxEntries > 0 ==> |done| <= lim.maxEntries)
    && (forall i :: 0 <= i < |done| ==> done[i].name in st.seen && SafeComps(done[i].comps))
    && (forall i, j :: 0 <= i < j < |done| ==> done[i].name != done[j].name)
  }

  ghost predicate SizesHandled(st: Progress, done: seq<Entry>, lim: Limits) {
    && st.total == Wrap64(Declared(done))
    && (lim.maxExpanded > 0 ==> forall i :: 0 <= i <= |done| ==> Wrap64(Declared(done[..i])) <= lim.maxExpanded)
  }

  ghost predicate BinaryHandled(st: Progress, done: seq<Entry>, base: Path) {
    var k := LastBinary(done);
    if k < 0 then st.bin == None
    else st.bin == Some(done[k].comps) && FileAt(st.fs, base, done[k].comps, done[k].kind.banner)
  }

  /** The loop invariant of the extraction, over the entries already handled. */
  ghost predicate Handled(fs0: Files, st: Progress, done: seq<Entry>, base: Path, lim: Limits) {
    && Contained(fs0, st.fs, base)
    && NamesHandled(st, done, lim)
    && SizesHandled(st, done, lim)
    && BinaryHandled(st, done, base)
  }

  lemma Wrap64Add(a: int, b: int)
    ensures Wrap64(Wrap64(a) + b) == Wrap64(a + b)
  {
    var m := 2 * INT64;
    var x := a + INT64;
    assert Wrap64(a) + b + INT64 == x % m + b;
    assert x + b == x % m + b + m * (x / m);
    ModShift(x % m + b, x / m, m);
  }

  lemma ModShift(x: int, k: int, m: int)
    requires m == 2 * INT64
    ensures (x + m * k) % m == x % m
  {}

  /** What storing one entry does to the file system. */
  lemma StoreContained(fs0: Files, st: Progress, e: Entry, base: Path, lim: Limits)
    requires Contained(fs0, st.fs, base) && SafeComps(e.comps)
    requires Store(st, e, base, lim).Ok?
    ensures var st' := Store(st, e, base, lim).value;
            Contained(fs0, st'.fs, base) && Grows(ViewOf(st.fs), ViewOf(st'.fs))
    ensures e.kind.RegEntry? ==> FileAt(Store(st, e, base, lim).value.fs, base, e.comps, e.kind.banner)
  {
    match e.kind {
      case DirEntry => MkdirAllContained(fs0, st.fs, base, e.comps);
      case RegEntry(size, banner) => CreateBelowContained(fs0, st.fs, base, e.comps, File(banner));
      case LinkEntry(linkname) =>
        AcceptedLinkIsTame(e.comps, linkname);
        CreateBelowContained(fs0, st.fs, base, e.comps, Link(LinkTarget(linkname)));
      case OtherEntry =>
    }
  }

  lemma SizesStep(st: Progress, st': Progress, done: seq<Entry>, e: Entry, lim: Limits)
    requires SizesHandled(st, done, lim)
    requires st'.total == if e.kind.RegEntry? then Wrap64(st.total + e.kind.size) else st.total
    requires e.kind.RegEntry? && lim.maxExpanded > 0 ==> st'.total <= lim.maxExpanded
    ensures SizesHandled(st', done + [e], lim)
  {
    var done' := done + [e];
    assert done'[..|done|] == done;
    if e.kind.RegEntry? { Wrap64Add(Declared(done), e.kind.size); }
    forall i | 0 <= i <= |done'| && lim.maxExpanded > 0 ensures Wrap64(Declared(done'[..i])) <= lim.maxExpanded {
      if i <= |done| {
        assert done'[..i] == done[..i];
      } else {
        assert done'[..i] == done';
        assert done[..|done|] == done;
      }
    }
  }

  lemma BinaryStep(st: Progress, st': Progress, done: seq<Entry>, e: Entry, base: Path)
    requires BinaryHandled(st, done, base) && Grows(ViewOf(st.fs), ViewOf(st'.fs))
    requires st'.bin == if IsBinary(e) then Some(e.comps) else st.bin
    requires e.kind.RegEntry? ==> FileAt(st'.fs, base, e.comps, e.kind.banner)
    ensures BinaryHandled(st', done + [e], base)
  {
    var done' := done + [e];
    assert done'[..|done|] == done;
    var k := LastBinary(done);
    if !IsBinary(e) && k >= 0 {
      WalkGrows(ViewOf(st.fs), ViewOf(st'.fs), [], base + done[k].comps, KERNEL_LINKS);
    }
  }

  lemma NamesStep(st: Progress, st': Progress, done: seq<Entry>, e: Entry, lim: Limits)
    requires NamesHandled(st, done, lim) && SafeComps(e.comps) && e.name !in st.seen
    requires st'.entries == st.entries + 1 && st'.seen == st.seen + {e.name}
    requires lim.maxEntries > 0 ==> st.entries < lim.maxEntries
    ensures NamesHandled(st', done + [e], lim)
  {
    var done' := done + [e];
    forall i | 0 <= i < |done'| ensures done'[i].name in st'.seen && SafeComps(done'[i].comps) {
      if i < |done| { assert done'[i] == done[i]; }
    }
  }

  /** The counters after storing one entry. */
  lemma StoreCounters(st: Progress, e: Entry, base: Path, lim: Limits, st': Progress)
    requires Store(st, e, base, lim) == Ok(st')
    ensures st'.entries == st.entries && st'.seen == st.seen
    ensures st'.total == if e.kind.RegEntry? then Wrap64(st.total + e.kind.size) else st.total
    ensures e.kind.RegEntry? && lim.maxExpanded > 0 ==> st'.total <= lim.maxExpanded
    ensures st'.bin == if IsBinary(e) then Some(e.comps) else st.bin
  {}

  lemma StepHandled(fs0: Files, st: Progress, done: seq<Entry>, e: Entry, base: Path, lim: Limits, st': Progress)
    requires Handled(fs0, st, done, base, lim) && SafeComps(e.comps) && Admit(st, e, base, lim) == Ok(st')
    requires lim.maxEntries > 0 ==> st.entries < lim.maxEntries
    ensures Handled(fs0, st', done + [e], base, lim)
  {
    var st1 := st.(entries := st.entries + 1, seen := st.seen + {e.name});
    StoreContained(fs0, st1, e, base, lim);
    StoreCounters(st1, e, base, lim, st');
    NamesStep(st, st', done, e, lim);
    SizesStep(st, st', done, e, lim);
    BinaryStep(st, st', done, e, base);
  }

  lemma ReadIsSafe(item: Item)
    requires Read(item).Ok?
    ensures SafeComps(Read(item).value.comps)
    ensures var p := Read(item).value.name; Split(p) == Read(item).value.comps && SafeArchivePath(p) == Ok(p)
  {
    SafeArchivePathExact(item.hdr.name);
    SafeArchivePathFixpoint(item.hdr.name);
  }

  lemma StepItemHandled(fs0: Files, st: Progress, done: seq<Entry>, item: Item, base: Path, lim: Limits, st': Progress)
    requires Handled(fs0, st, done, base, lim) && Step(st, item, base, lim) == Ok(st')
    ensures Read(item).Ok? && Handled(fs0, st', done + [Read(item).value], base, lim)
  {
    ReadIsSafe(item);
    StepHandled(fs0, st, done, Read(item).value, base, lim, st');
  }

  /** The entries an archive is read as. */
  function Entries(items: seq<Item>): seq<Entry> {
    if items == [] then []
    else
      var front := Entries(items[..|items| - 1]);
      match Read(items[|items| - 1])
      case Ok(e) => front + [e]
      case Err(_) => front
  }

  ghost predicate ItemsHandled(fs0: Files, st: Progress, items: seq<Item>, base: Path, lim: Limits) {
    |Entries(items)| == |items| && Handled(fs0, st, Entries(items), base, lim)
  }

  lemma ItemsHandledStep(fs0: Files, st: Progress, items: seq<Item>, item: Item, base: Path, lim: Limits, st': Progress)
    requires ItemsHandled(fs0, st, items, base, lim) && Step(st, item, base, lim) == Ok(st')
    ensures ItemsHandled(fs0, st', items + [item], base, lim)
  {
    StepItemHandled(fs0, st, Entries(items), item, base, lim, st');
    assert (items + [item])[..|items|] == items;
  }

  lemma FoldHandled(fs0: Files, items: seq<Item>, base: Path, lim: Limits, out: Progress)
    requires FreshDir(fs0, base) && Fold(Start(fs0), items, base, lim) == Ok(out)
    ensures ItemsHandled(fs0, out, items, base, lim)
  {
    StartHandled(fs0, base, lim);
    var f := (s: Progress, item: Item) => Step(s, item, base, lim);
    var inv := (s: Progress, d: seq<Item>) => ItemsHandled(fs0, s, d, base, lim);
    forall s, d, i, s' | inv(s, d) && f(s, i) == Ok(s') ensures inv(s', d + [i]) {
      ItemsHandledStep(fs0, s, d, i, base, lim, s');
    }
    TryFoldKeeps(f, inv, Start(fs0), [], items, out);
    assert [] + items == items;
  }

  lemma StartHandled(fs: Files, base: Path, lim: Limits)
    requires FreshDir(fs, base)
    ensures Handled(fs, Start(fs), [], base, lim)
  {
    forall p: Path | p != []
      ensures match ViewOf(fs)(base + p) case Some(Link(t)) => Tame(t) case _ => true
    {
      assert base < base + p;
    }
  }

  // ---------------------------------------------------------------- the extraction

  /** The archive-relative path of the agent binary and the extracted file system. */
  datatype Extracted = Extracted(fs: Files, bin: Path)

  function ExtractSpec(fs: Files, items: seq<Item>, base: Path, lim: Limits): Result<Extracted, Error> {
    match Fold(Start(fs), items, base, lim)
    case Err(e) => Err(e)
    case Ok(st) => if st.bin.None? then Err(NoBinary) else Ok(Extracted(st.fs, st.bin.value))
  }

  /** The entry loop. */
  method SafeExtract(fs0: Files, items: seq<Item>, base: Path, lim: Limits) returns (r: Result<Extracted, Error>)
    ensures r == ExtractSpec(fs0, items, base, lim)
  {
    var st := Start(fs0);
    var i := 0;
    while i < |items|
      invariant 0 <= i <= |items|
      invariant Fold(Start(fs0), items, base, lim) == Fold(st, items[i..], base, lim)
    {
      var step := Step(st, items[i], base, lim);
      assert items[i..][1..] == items[i + 1..];
      if step.Err? { return Err(step.error); }
      st := step.value;
      i := i + 1;
    }
    if st.bin.None? { return Err(NoBinary); }
    return Ok(Extracted(st.fs, st.bin.value));
  }

  /** What a successful extraction promises. */
  lemma ExtractionFacts(fs: Files, items: seq<Item>, base: Path, lim: Limits, x: Extracted)
    requires FreshDir(fs, base) && ExtractSpec(fs, items, base, lim) == Ok(x)
    ensures Contained(fs, x.fs, base)
    ensures var done := Entries(items);
            && |done| == |items| && (lim.maxEntries > 0 ==> |items| <= lim.maxEntries)
            && (forall i, j :: 0 <= i < j < |done| ==> done[i].name != done[j].name)
            && LastBinary(done) >= 0 && x.bin == done[LastBinary(done)].comps && SafeComps(x.bin)
            && FileAt(x.fs, base, x.bin, done[LastBinary(done)].kind.banner)
  {
    var out := Fold(Start(fs), items, base, lim).value;
    FoldHandled(fs, items, base, lim, out);
  }

  /** Following any path, through any chain of extracted links of any length, stays
      inside the destination and does not depend on anything outside it. */
  lemma ExtractionConfined(fs: Files, items: seq<Item>, base: Path, lim: Limits, x: Extracted,
                           rest: seq<Comp>, links: nat, world: Files)
    requires FreshDir(fs, base) && ExtractSpec(fs, items, base, lim) == Ok(x)
    requires ".." !in rest
    requires forall p: Path :: base < p ==> ViewOf(world)(p) == ViewOf(x.fs)(p)
    ensures var w := Walk(ViewOf(x.fs), [], base + rest, links); w.Found? ==> base <= w.path
    ensures Walk(ViewOf(world), base, rest, links) == Walk(ViewOf(x.fs), base, rest, links)
    ensures forall p: Path :: !(base < p) ==> ViewOf(x.fs)(p) == ViewOf(fs)(p)
  {
    ExtractionFacts(fs, items, base, lim, x);
    var look, other := ViewOf(x.fs), ViewOf(world);
    forall q: Path | q != [] ensures other(base + q) == look(base + q) { assert base < base + q; }
    WalkFromRoot(look, base, rest, links);
    Confinement(look, other, base, rest, links);
  }

  // ---------------------------------------------------------------- the size limit and int64

  ghost predicate NonNegativeSizes(done: seq<Entry>) {
    forall i :: 0 <= i < |done| && done[i].kind.RegEntry? ==> 0 <= done[i].kind.size
  }

  lemma {:induction false} DeclaredGrows(done: seq<Entry>, i: nat)
    requires NonNegativeSizes(done) && i <= |done|
    ensures 0 <= Declared(done[..i]) <= Declared(done)
    decreases |done| - i, |done|
  {
    if i == |done| {
      assert done[..i] == done;
      if done != [] {
        var front := done[..|done| - 1];
        DeclaredGrows(front, |front|);
        assert front[..|front|] == front;
      }
    } else {
      DeclaredGrows(done, i + 1);
      var upTo := done[..i + 1];
      assert upTo[..i] == done[..i];
      DeclaredPrefixNonNegative(done, i);
    }
  }

  lemma {:induction false} DeclaredPrefixNonNegative(done: seq<Entry>, i: nat)
    requires NonNegativeSizes(done) && i <= |done|
    ensures 0 <= Declared(done[..i])
    decreases i
  {
    if i > 0 {
      DeclaredPrefixNonNegative(done, i - 1);
      assert done[..i][..i - 1] == done[..i - 1];
    }
  }

  /** The expanded-size limit holds for an accepted archive exactly when the running
      sum of declared sizes never left int64. */
  lemma SizeLimitExact(fs: Files, items: seq<Item>, base: Path, lim: Limits)
    requires FreshDir(fs, base) && ExtractSpec(fs, items, base, lim).Ok?
    requires 0 < lim.maxExpanded < INT64 && NonNegativeSizes(Entries(items))
    ensures var done := Entries(items);
            Declared(done) <= lim.maxExpanded <==> forall i :: 0 <= i <= |done| ==> Declared(done[..i]) < INT64
  {
    var out := Fold(Start(fs), items, base, lim).value;
    FoldHandled(fs, items, base, lim, out);
    WithinLimit(out, Entries(items), lim);
  }

  lemma WithinLimit(st: Progress, done: seq<Entry>, lim: Limits)
    requires SizesHandled(st, done, lim) && 0 < lim.maxExpanded < INT64 && NonNegativeSizes(done)
    ensures Declared(done) <= lim.maxExpanded <==> forall i :: 0 <= i <= |done| ==> Declared(done[..i]) < INT64
  {
    assert done[..|done|] == done;
    DeclaredPrefixNonNegative(done, |done|);
    if Declared(done) <= lim.maxExpanded {
      forall i | 0 <= i <= |done| ensures Declared(done[..i]) < INT64 { DeclaredGrows(done, i); }
    }
  }

  lemma PlainNameIsSafe(c: Comp)
    requires Plain(c) && !(".." <= c) && '\0' !in c
    ensures SafeArchivePath(c) == Ok(c) && Split(c) == [c]
  {
    SplitOfPlain(c);
    assert TrimPrefix(c, "./") == c;
    assert [] + [c] == [c];
    CleanCompsKeeps(false, [], [c]);
    SafeArchivePathExact(c);
  }

  lemma StoredAtTop(fs: Files, base: Path, c: Comp, node: Node)
    requires CanonicalDir(ViewOf(fs), base) && Plain(c) && base + [c] !in fs
    ensures CreateBelow(fs, base, [c], node) == Some(fs[base + [c] := node])
  {
    var full := base + [c];
    assert [c][..0] == [] && base + [] == base && full[..|full| - 1] == base;
    WalkFixesCanonical(ViewOf(fs), base, KERNEL_LINKS);
  }

  /** A regular file within the limits is admitted exactly when the disk takes it. */
  lemma AdmitFile(st: Progress, e: Entry, fs: Files, base: Path, lim: Limits)
    requires e.kind.RegEntry? && e.comps != [] && e.name !in st.seen
    requires lim.maxExpanded > 0 ==> Wrap64(st.total + e.kind.size) <= lim.maxExpanded
    requires CreateBelow(st.fs, base, e.comps, File(e.kind.banner)) == Some(fs)
    ensures Admit(st, e, base, lim) ==
            if !e.diskOk then Err(DiskFailed)
            else Ok(Progress(fs, st.entries + 1, Wrap64(st.total + e.kind.size), st.seen + {e.name},
                             if IsBinaryName(e.comps[|e.comps| - 1]) then Some(e.comps) else st.bin))
  {}

  function RegItem(c: Comp, size: int, diskOk: bool): Item { Next(Header(c, RegEntry(size, "")), diskOk) }

  /** A name that an archive entry may have at the top of the destination. */
  predicate TopName(c: Comp) { Plain(c) && !(".." <= c) && '\0' !in c }

  lemma ReadReg(c: Comp, size: int, diskOk: bool)
    requires TopName(c)
    ensures Read(RegItem(c, size, diskOk)) == Ok(Entry(c, [c], RegEntry(size, ""), diskOk))
  {
    PlainNameIsSafe(c);
  }

  lemma StepAdmits(st: Progress, item: Item, e: Entry, base: Path, lim: Limits)
    requires Read(item) == Ok(e) && (lim.maxEntries > 0 ==> st.entries < lim.maxEntries)
    ensures Step(st, item, base, lim) == Admit(st, e, base, lim)
  {}

  lemma FirstEntry(fs: Files, item: Item, e: Entry, c: Comp, base: Path, lim: Limits)
    requires FreshDir(fs, base) && Plain(c) && Read(item) == Ok(e) && e.kind.RegEntry? && e.comps == [c] && e.diskOk
    requires 0 <= e.kind.size < INT64 && (lim.maxExpanded > 0 ==> e.kind.size <= lim.maxExpanded)
    ensures var r := Fold(Start(fs), [item], base, lim);
            r.Ok? && r.value.seen == {e.name} && r.value.entries == 1 && Declared(Entries([item])) == e.kind.size
  {
    AdmitFirst(fs, e, c, base, lim);
    StepAdmits(Start(fs), item, e, base, lim);
    OneEntry(item, e);
    FoldOne(Start(fs), item, base, lim);
  }

  lemma AdmitFirst(fs: Files, e: Entry, c: Comp, base: Path, lim: Limits)
    requires FreshDir(fs, base) && Plain(c) && e.kind.RegEntry? && e.comps == [c] && e.diskOk
    requires 0 <= e.kind.size < INT64 && (lim.maxExpanded > 0 ==> e.kind.size <= lim.maxExpanded)
    ensures var r := Admit(Start(fs), e, base, lim); r.Ok? && r.value.seen == {e.name} && r.value.entries == 1
  {
    assert base < base + [c];
    StoredAtTop(fs, base, c, File(e.kind.banner));
    AdmitFile(Start(fs), e, fs[base + [c] := File(e.kind.banner)], base, lim);
    assert {} + {e.name} == {e.name};
  }

  lemma FoldOne(st: Progress, item: Item, base: Path, lim: Limits)
    ensures Fold(st, [item], base, lim) == Step(st, item, base, lim)
  {
    TryFoldOne((s: Progress, i: Item) => Step(s, i, base, lim), st, item);
  }

  lemma OneEntry(item: Item, e: Entry)
    requires Read(item) == Ok(e) && e.kind.RegEntry?
    ensures Entries([item]) == [e] && Declared([e]) == e.kind.size
  {
    assert [item][..0] == [] && [e][..0] == [];
  }

  /** A regular entry that comes to the size check is refused by it if and only if the declared
      sum exceeds the limit and still fits int64: beyond that it wraps around and passes. */
  lemma SizeCheckExactly(fs: Files, items: seq<Item>, st: Progress, item: Item, e: Entry, base: Path, lim: Limits)
    requires FreshDir(fs, base) && Fold(Start(fs), items, base, lim) == Ok(st) && 0 < lim.maxExpanded < INT64
    requires 0 <= Declared(Entries(items)) <= lim.maxExpanded
    requires Read(item) == Ok(e) && e.kind.RegEntry? && 0 <= e.kind.size < INT64
    requires (lim.maxEntries > 0 ==> st.entries < lim.maxEntries) && e.name !in st.seen
    ensures Step(st, item, base, lim) == Err(TooLarge) <==>
            lim.maxExpanded < Declared(Entries(items)) + e.kind.size < INT64
  {
    TotalIs(fs, items, st, base, lim);
    ReadHasComps(item);
    StepAdmits(st, item, e, base, lim);
    AdmitChecksSum(st, e, base, lim, Declared(Entries(items)));
  }

  lemma AdmitChecksSum(st: Progress, e: Entry, base: Path, lim: Limits, sum: int)
    requires e.kind.RegEntry? && e.comps != [] && e.name !in st.seen && st.total == Wrap64(sum)
    requires 0 <= sum <= lim.maxExpanded < INT64 && 0 < lim.maxExpanded && 0 <= e.kind.size < INT64
    ensures Admit(st, e, base, lim) == Err(TooLarge) <==> lim.maxExpanded < sum + e.kind.size < INT64
  {
    WrapsBelow(sum + e.kind.size);
    AdmitChecks(st, e, base, lim);
  }

  lemma TotalIs(fs: Files, items: seq<Item>, st: Progress, base: Path, lim: Limits)
    requires FreshDir(fs, base) && Fold(Start(fs), items, base, lim) == Ok(st)
    ensures st.total == Wrap64(Declared(Entries(items)))
  {
    FoldHandled(fs, items, base, lim, st);
  }

  lemma ReadHasComps(item: Item)
    requires Read(item).Ok?
    ensures Read(item).value.comps != []
  {
    ReadIsSafe(item);
  }

  lemma WrapsBelow(sum: int)
    requires 0 <= sum < 2 * INT64
    ensures Wrap64(sum) == if sum < INT64 then sum else sum - 2 * INT64
  {}

  lemma AdmitChecks(st: Progress, e: Entry, base: Path, lim: Limits)
    requires e.kind.RegEntry? && e.comps != [] && e.name !in st.seen
    ensures Admit(st, e, base, lim) == Err(TooLarge) <==>
            lim.maxExpanded > 0 && Wrap64(st.total + e.kind.size) > lim.maxExpanded
  {}

  /** So it goes: whatever positive limit below 2^63 is set, after a first file within it a
      second one that brings the declared sum to 2^63 or more is not refused for its size;
      only writing it can stop it. */
  lemma SizeLimitCanWrap(fs: Files, base: Path, lim: Limits, c: Comp, n: int, d: Comp, m: int, diskOk: bool)
    requires FreshDir(fs, base) && 0 < lim.maxExpanded < INT64 && (lim.maxEntries > 0 ==> lim.maxEntries >= 2)
    requires TopName(c) && TopName(d) && c != d
    requires 0 <= n <= lim.maxExpanded && 0 <= m < INT64 <= n + m
    ensures var first := Fold(Start(fs), [RegItem(c, n, true)], base, lim);
            first.Ok? && Step(first.value, RegItem(d, m, diskOk), base, lim) != Err(TooLarge)
  {
    ReadReg(c, n, true);
    ReadReg(d, m, diskOk);
    var i0 := RegItem(c, n, true);
    FirstEntry(fs, i0, Entry(c, [c], RegEntry(n, ""), true), c, base, lim);
    SizeCheckExactly(fs, [i0], Fold(Start(fs), [i0], base, lim).value, RegItem(d, m, diskOk),
                     Entry(d, [d], RegEntry(m, ""), diskOk), base, lim);
  }
}
