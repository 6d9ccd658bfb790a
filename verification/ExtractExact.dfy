/** What an accepted archive puts where: every entry is there as it was declared, and nothing
    else is new. And which entries are refused, and why. */
module ExtractExact {
  import opened Wrappers
  import opened Paths
  import opened Resolve
  import opened Folds
  import opened Extract

  // ---------------------------------------------------------------- where an entry lies

  /** The place that a path below the destination names: its last component in the directory
      that the others resolve to. */
  function Spot(fs: Files, base: Path, p: Path): Option<Path>
    requires p != []
  {
    match Walk(ViewOf(fs), [], base + p[..|p| - 1], KERNEL_LINKS)
    case Found(dir) => if IsDir(fs, dir) then Some(dir + [p[|p| - 1]]) else None
    case _ => None
  }

  ghost predicate NodeAt(fs: Files, base: Path, p: Path, node: Node)
    requires p != []
  {
    Spot(fs, base, p).Some? && Spot(fs, base, p).value in fs && fs[Spot(fs, base, p).value] == node
  }

  ghost predicate DirAt(fs: Files, base: Path, p: Path) {
    var w := Walk(ViewOf(fs), [], base + p, KERNEL_LINKS); w.Found? && IsDir(fs, w.path)
  }

  /** The entry is there: a directory's path leads to a directory; a file lies under its path
      and is found there; a link lies under its path and has the declared text. */
  ghost predicate Present(fs: Files, base: Path, e: Entry) {
    && e.comps != []
    && match e.kind
       case DirEntry => DirAt(fs, base, e.comps)
       case RegEntry(_, banner) => NodeAt(fs, base, e.comps, File(banner)) && FileAt(fs, base, e.comps, banner)
       case LinkEntry(text) => NodeAt(fs, base, e.comps, Link(Target(Rooted(text), Split(text))))
       case OtherEntry => false
  }

  /** The path is the entry's own, or a directory on the way to it. */
  ghost predicate Explains(fs: Files, base: Path, e: Entry, n: int, q: Path) {
    && 1 <= n <= |e.comps| && Spot(fs, base, e.comps[..n]) == Some(q) && q in fs
    && (n < |e.comps| || e.kind.DirEntry? ==> fs[q] == Dir)
  }

  ghost predicate Explained(fs: Files, base: Path, done: seq<Entry>, q: Path) {
    exists i, n :: 0 <= i < |done| && Explains(fs, base, done[i], n, q)
  }

  /** All entries are there, and every new path is one of theirs. */
  ghost predicate Exact(fs0: Files, fs: Files, base: Path, done: seq<Entry>) {
    && (forall i :: 0 <= i < |done| ==> Present(fs, base, done[i]))
    && (forall q: Path :: q in fs && q !in fs0 ==> Explained(fs, base, done, q))
  }

  // ---------------------------------------------------------------- it stays there

  lemma SpotGrows(fs: Files, fs': Files, base: Path, p: Path)
    requires Grows(ViewOf(fs), ViewOf(fs')) && p != [] && Spot(fs, base, p).Some?
    ensures Spot(fs', base, p) == Spot(fs, base, p)
  {
    WalkGrows(ViewOf(fs), ViewOf(fs'), [], base + p[..|p| - 1], KERNEL_LINKS);
  }

  lemma NodeGrows(fs: Files, fs': Files, q: Path)
    requires Grows(ViewOf(fs), ViewOf(fs')) && q in fs
    ensures q in fs' && fs'[q] == fs[q]
  {
    assert ViewOf(fs)(q) == Some(fs[q]);
  }

  lemma PresentGrows(fs: Files, fs': Files, base: Path, e: Entry)
    requires Grows(ViewOf(fs), ViewOf(fs')) && Present(fs, base, e)
    ensures Present(fs', base, e)
  {
    if e.kind.DirEntry? {
      WalkGrows(ViewOf(fs), ViewOf(fs'), [], base + e.comps, KERNEL_LINKS);
    } else {
      SpotGrows(fs, fs', base, e.comps);
      NodeGrows(fs, fs', Spot(fs, base, e.comps).value);
      if e.kind.RegEntry? { WalkGrows(ViewOf(fs), ViewOf(fs'), [], base + e.comps, KERNEL_LINKS); }
    }
  }

  lemma ExplainedGrows(fs: Files, fs': Files, base: Path, done: seq<Entry>, e: Entry, q: Path)
    requires Grows(ViewOf(fs), ViewOf(fs')) && Explained(fs, base, done, q)
    ensures Explained(fs', base, done + [e], q)
  {
    var i, n :| 0 <= i < |done| && Explains(fs, base, done[i], n, q);
    SpotGrows(fs, fs', base, done[i].comps[..n]);
    NodeGrows(fs, fs', q);
    assert (done + [e])[i] == done[i];
    assert Explains(fs', base, (done + [e])[i], n, q);
  }

  // ---------------------------------------------------------------- one entry

  lemma ParentOf(p: Path, last: Comp)
    ensures (p + [last])[..|p + [last]| - 1] == p && (p + [last])[|p + [last]| - 1] == last
  {}

  /** Creating adds one node, where its path says. */
  lemma CreateExactly(fs0: Files, fs: Files, base: Path, comps: Path, node: Node, fs': Files)
    requires Contained(fs0, fs, base) && comps != [] && AllPlain(comps)
    requires node.Link? ==> Tame(node.target) && forall c :: c in node.target.comps ==> NoSlash(c)
    requires Create(fs, base + comps, node) == Some(fs')
    ensures Spot(fs', base, comps).Some? && NodeAt(fs', base, comps, node)
    ensures fs' == fs[Spot(fs', base, comps).value := node] && Spot(fs', base, comps).value !in fs
  {
    var parent, last := comps[..|comps| - 1], comps[|comps| - 1];
    LastApart(base, comps);
    CreateAdds(fs, base + parent, last, node);
    CreateContained(fs0, fs, base, comps, node);
    SpotGrows(fs, fs', base, comps);
  }

  /** Every new path is a directory on the way. */
  ghost predicate OnlyDirs(fs: Files, fs': Files, base: Path, comps: Path) {
    forall q: Path :: q in fs' && q !in fs ==> DirOnWay(fs', base, comps, q)
  }

  ghost predicate DirOnWay(fs: Files, base: Path, comps: Path, q: Path) {
    q in fs && fs[q] == Dir && exists n :: 1 <= n <= |comps| && Spot(fs, base, comps[..n]) == Some(q)
  }

  lemma DirOnWayLonger(fs: Files, fs': Files, base: Path, comps: Path, q: Path)
    requires Grows(ViewOf(fs), ViewOf(fs')) && comps != [] && DirOnWay(fs, base, comps[..|comps| - 1], q)
    ensures DirOnWay(fs', base, comps, q)
  {
    var parent := comps[..|comps| - 1];
    var n :| 1 <= n <= |parent| && Spot(fs, base, parent[..n]) == Some(q);
    assert parent[..n] == comps[..n];
    SpotGrows(fs, fs', base, comps[..n]);
    NodeGrows(fs, fs', q);
  }

  /** A directory just created is where its path leads. */
  lemma DirCreated(fs0: Files, fs: Files, base: Path, comps: Path)
    requires Contained(fs0, fs, base) && comps != [] && AllPlain(comps) && NodeAt(fs, base, comps, Dir)
    ensures DirAt(fs, base, comps)
  {
    var parent, last := comps[..|comps| - 1], comps[|comps| - 1];
    LastApart(base, comps);
    NamesHaveNoSlash(base, parent, ViewOf(fs));
    WalkThenEntry(ViewOf(fs), [], base + parent, last, KERNEL_LINKS);
  }

  lemma {:induction false} MkdirAllExactly(fs0: Files, fs: Files, base: Path, comps: Path, fs': Files)
    requires Contained(fs0, fs, base) && AllPlain(comps) && MkdirAll(fs, base, comps) == Some(fs')
    ensures DirAt(fs', base, comps) && OnlyDirs(fs, fs', base, comps)
    decreases |comps|
  {
    if fs' != fs && comps != [] {
      var parent := comps[..|comps| - 1];
      MkdirAllMade(fs, base, comps);
      var below := MkdirAll(fs, base, parent).value;
      MkdirAllExactly(fs0, fs, base, parent, below);
      MkdirAllContained(fs0, fs, base, parent);
      CreateExactly(fs0, below, base, comps, Dir, fs');
      CreateContained(fs0, below, base, comps, Dir);
      DirCreated(fs0, fs', base, comps);
      forall q: Path | q in fs' && q !in fs ensures DirOnWay(fs', base, comps, q) {
        if q in below { DirOnWayLonger(below, fs', base, comps, q); } else { assert comps[..|comps|] == comps; }
      }
    } else {
      MkdirAllUnmade(fs, base, comps);
    }
  }

  /** MkdirAll that changes nothing has found the directory. */
  lemma MkdirAllUnmade(fs: Files, base: Path, comps: Path)
    requires MkdirAll(fs, base, comps).Some? && (MkdirAll(fs, base, comps).value == fs || comps == [])
    ensures DirAt(fs, base, comps) && MkdirAll(fs, base, comps).value == fs
  {
    var w := Walk(ViewOf(fs), [], base + comps, KERNEL_LINKS);
    if !(w.Found? && IsDir(fs, w.path)) && comps != [] { MkdirAllMadeHere(fs, base, comps); }
  }

  lemma MkdirAllMadeHere(fs: Files, base: Path, comps: Path)
    requires comps != [] && MkdirAll(fs, base, comps).Some? && !DirAt(fs, base, comps)
    ensures MkdirAll(fs, base, comps).value != fs
  {
    var below := MkdirAll(fs, base, comps[..|comps| - 1]).value;
    MkdirAllKeeps(fs, base, comps[..|comps| - 1]);
    var full := base + comps;
    var dir := Walk(ViewOf(below), [], full[..|full| - 1], KERNEL_LINKS).path;
    var at := dir + [full[|full| - 1]];
    assert at !in below && at in MkdirAll(fs, base, comps).value;
    assert at !in fs;
  }

  lemma {:induction false} MkdirAllKeeps(fs: Files, base: Path, comps: Path)
    ensures MkdirAll(fs, base, comps).Some? ==> forall q :: q in fs ==> q in MkdirAll(fs, base, comps).value
    decreases |comps|
  {
    if comps != [] { MkdirAllKeeps(fs, base, comps[..|comps| - 1]); }
  }

  /** A node created below its parent directories, which may have had to be made. */
  lemma CreateBelowExactly(fs0: Files, fs: Files, base: Path, comps: Path, node: Node, fs': Files)
    requires Contained(fs0, fs, base) && comps != [] && AllPlain(comps)
    requires node.Link? ==> Tame(node.target) && forall c :: c in node.target.comps ==> NoSlash(c)
    requires CreateBelow(fs, base, comps, node) == Some(fs')
    ensures NodeAt(fs', base, comps, node)
    ensures forall q: Path :: q in fs' && q !in fs ==>
              Spot(fs', base, comps) == Some(q) || DirOnWay(fs', base, comps, q)
  {
    var parent := comps[..|comps| - 1];
    var below := MkdirAll(fs, base, parent).value;
    MkdirAllContained(fs0, fs, base, parent);
    MkdirAllExactly(fs0, fs, base, parent, below);
    CreateExactly(fs0, below, base, comps, node, fs');
    CreateContained(fs0, below, base, comps, node);
    forall q: Path | q in fs' && q !in fs ensures Spot(fs', base, comps) == Some(q) || DirOnWay(fs', base, comps, q) {
      if q in below { DirOnWayLonger(below, fs', base, comps, q); }
    }
  }

  lemma OnWayExplains(fs: Files, base: Path, e: Entry, q: Path)
    requires DirOnWay(fs, base, e.comps, q)
    ensures exists n :: Explains(fs, base, e, n, q)
  {
    var n :| 1 <= n <= |e.comps| && Spot(fs, base, e.comps[..n]) == Some(q);
    assert Explains(fs, base, e, n, q);
  }

  lemma OwnExplains(fs: Files, base: Path, e: Entry, q: Path)
    requires e.comps != [] && !e.kind.DirEntry? && Spot(fs, base, e.comps) == Some(q) && q in fs
    ensures exists n :: Explains(fs, base, e, n, q)
  {
    assert e.comps[..|e.comps|] == e.comps;
    assert Explains(fs, base, e, |e.comps|, q);
  }

  /** What storing an entry puts on the disk. */
  lemma StoreExactly(fs0: Files, st: Progress, e: Entry, base: Path, lim: Limits, st': Progress)
    requires Contained(fs0, st.fs, base) && SafeComps(e.comps) && Store(st, e, base, lim) == Ok(st')
    ensures Present(st'.fs, base, e)
    ensures forall q: Path :: q in st'.fs && q !in st.fs ==> exists n :: Explains(st'.fs, base, e, n, q)
  {
    StoreContained(fs0, st, e, base, lim);
    match e.kind {
      case DirEntry =>
        MkdirAllExactly(fs0, st.fs, base, e.comps, st'.fs);
        forall q: Path | q in st'.fs && q !in st.fs ensures exists n :: Explains(st'.fs, base, e, n, q) {
          OnWayExplains(st'.fs, base, e, q);
        }
      case RegEntry(_, banner) =>
        CreateBelowExactly(fs0, st.fs, base, e.comps, File(banner), st'.fs);
        BelowExplains(st.fs, st'.fs, base, e);
      case LinkEntry(text) =>
        AcceptedLinkIsTame(e.comps, text);
        CreateBelowExactly(fs0, st.fs, base, e.comps, Link(LinkTarget(text)), st'.fs);
        BelowExplains(st.fs, st'.fs, base, e);
    }
  }

  lemma BelowExplains(fs: Files, fs': Files, base: Path, e: Entry)
    requires e.comps != [] && !e.kind.DirEntry?
    requires forall q: Path :: q in fs' && q !in fs ==>
               Spot(fs', base, e.comps) == Some(q) || DirOnWay(fs', base, e.comps, q)
    ensures forall q: Path :: q in fs' && q !in fs ==> exists n :: Explains(fs', base, e, n, q)
  {
    forall q: Path | q in fs' && q !in fs ensures exists n :: Explains(fs', base, e, n, q) {
      if DirOnWay(fs', base, e.comps, q) { OnWayExplains(fs', base, e, q); } else { OwnExplains(fs', base, e, q); }
    }
  }

  lemma ExactStep(fs0: Files, fs: Files, fs': Files, base: Path, done: seq<Entry>, e: Entry)
    requires Exact(fs0, fs, base, done) && Grows(ViewOf(fs), ViewOf(fs')) && Present(fs', base, e)
    requires forall q: Path :: q in fs' && q !in fs ==> exists n :: Explains(fs', base, e, n, q)
    ensures Exact(fs0, fs', base, done + [e])
  {
    var all := done + [e];
    forall i | 0 <= i < |all| ensures Present(fs', base, all[i]) {
      if i < |done| { PresentGrows(fs, fs', base, done[i]); }
    }
    forall q: Path | q in fs' && q !in fs0 ensures Explained(fs', base, all, q) {
      if q in fs {
        ExplainedGrows(fs, fs', base, done, e, q);
      } else {
        var n :| Explains(fs', base, e, n, q);
        assert all[|done|] == e;
      }
    }
  }

  // ---------------------------------------------------------------- the whole archive

  ghost predicate AllHandled(fs0: Files, st: Progress, items: seq<Item>, base: Path, lim: Limits) {
    ItemsHandled(fs0, st, items, base, lim) && Exact(fs0, st.fs, base, Entries(items)) && Closed(st.fs, base)
  }

  lemma StoredKeeps(fs0: Files, st: Progress, done: seq<Entry>, e: Entry, base: Path, lim: Limits, st': Progress)
    requires Contained(fs0, st.fs, base) && Exact(fs0, st.fs, base, done) && Closed(st.fs, base)
    requires SafeComps(e.comps) && Store(st, e, base, lim) == Ok(st')
    ensures Exact(fs0, st'.fs, base, done + [e]) && Closed(st'.fs, base)
  {
    StoreContained(fs0, st, e, base, lim);
    StoreExactly(fs0, st, e, base, lim, st');
    StoreClosed(fs0, st, e, base, lim);
    ExactStep(fs0, st.fs, st'.fs, base, done, e);
  }

  lemma StepAdmitted(st: Progress, item: Item, base: Path, lim: Limits, st': Progress) returns (e: Entry)
    requires Step(st, item, base, lim) == Ok(st')
    ensures Read(item) == Ok(e) && SafeComps(e.comps)
    ensures Store(st.(entries := st.entries + 1, seen := st.seen + {e.name}), e, base, lim) == Ok(st')
  {
    e := Read(item).value;
    ReadIsSafe(item);
    AdmitStores(st, e, base, lim, st');
  }

  lemma AdmitStores(st: Progress, e: Entry, base: Path, lim: Limits, st': Progress)
    requires Admit(st, e, base, lim) == Ok(st')
    ensures Store(st.(entries := st.entries + 1, seen := st.seen + {e.name}), e, base, lim) == Ok(st')
  {}

  lemma EntriesSnoc(items: seq<Item>, item: Item, e: Entry)
    requires Read(item) == Ok(e)
    ensures Entries(items + [item]) == Entries(items) + [e]
  {
    assert (items + [item])[..|items|] == items;
  }

  lemma AllHandledStep(fs0: Files, st: Progress, items: seq<Item>, item: Item, base: Path, lim: Limits, st': Progress)
    requires AllHandled(fs0, st, items, base, lim) && Step(st, item, base, lim) == Ok(st')
    ensures AllHandled(fs0, st', items + [item], base, lim)
  {
    ItemsHandledStep(fs0, st, items, item, base, lim, st');
    var e := StepAdmitted(st, item, base, lim, st');
    StoredKeeps(fs0, st.(entries := st.entries + 1, seen := st.seen + {e.name}), Entries(items), e, base, lim, st');
    EntriesSnoc(items, item, e);
  }

  lemma FoldAllHandled(fs0: Files, items: seq<Item>, base: Path, lim: Limits, out: Progress)
    requires FreshDir(fs0, base) && Fold(Start(fs0), items, base, lim) == Ok(out)
    ensures AllHandled(fs0, out, items, base, lim)
  {
    StartHandled(fs0, base, lim);
    var f := (s: Progress, item: Item) => Step(s, item, base, lim);
    var inv := (s: Progress, d: seq<Item>) => AllHandled(fs0, s, d, base, lim);
    forall s, d, i, s' | inv(s, d) && f(s, i) == Ok(s') ensures inv(s', d + [i]) {
      AllHandledStep(fs0, s, d, i, base, lim, s');
    }
    TryFoldKeeps(f, inv, Start(fs0), [], items, out);
    assert [] + items == items;
  }

  /** A successful extraction: every entry of the archive is on the disk as its header declared
      it, and every new path is the path of an entry or a directory on the way to one. */
  lemma ExtractedExactly(fs: Files, items: seq<Item>, base: Path, lim: Limits, x: Extracted)
    requires FreshDir(fs, base) && ExtractSpec(fs, items, base, lim) == Ok(x)
    ensures Exact(fs, x.fs, base, Entries(items))
    ensures forall i :: 0 <= i < |items| ==>
              && |Entries(items)| == |items| && items[i].Next? && items[i].diskOk
              && Entries(items)[i].kind == items[i].hdr.kind
              && SafeArchivePath(items[i].hdr.name) == Ok(Join(Entries(items)[i].comps))
    ensures exists k :: 0 <= k < |Entries(items)| && x.bin == Entries(items)[k].comps && LastAgent(Entries(items), k)
  {
    ExtractionFacts(fs, items, base, lim, x);
    assert LastAgent(Entries(items), LastBinary(Entries(items)));
    FoldAllHandled(fs, items, base, lim, Fold(Start(fs), items, base, lim).value);
    EntriesRead(fs, items, base, lim, Fold(Start(fs), items, base, lim).value);
  }

  /** The last regular file whose name is one of the agent's two. */
  ghost predicate LastAgent(done: seq<Entry>, k: int)
    requires 0 <= k < |done|
  {
    forall i :: k <= i < |done| ==>
      (i == k <==> done[i].kind.RegEntry? && done[i].comps != [] && Last(done[i].comps) in {"agent", "cursor-agent"})
  }

  function Last(p: Path): Comp
    requires p != []
  {
    p[|p| - 1]
  }

  ghost predicate ReadAs(item: Item, e: Entry) {
    && item.Next? && item.diskOk && e.kind == item.hdr.kind && SafeArchivePath(item.hdr.name) == Ok(Join(e.comps))
  }

  ghost predicate AllRead(items: seq<Item>) {
    |Entries(items)| == |items| && forall i :: 0 <= i < |items| ==> ReadAs(items[i], Entries(items)[i])
  }

  lemma StepReads(st: Progress, item: Item, base: Path, lim: Limits)
    requires Step(st, item, base, lim).Ok?
    ensures Read(item).Ok? && ReadAs(item, Read(item).value)
  {
    SafeArchivePathExact(item.hdr.name);
  }

  lemma AllReadSnoc(items: seq<Item>, item: Item, e: Entry)
    requires AllRead(items) && Read(item) == Ok(e) && ReadAs(item, e)
    ensures AllRead(items + [item])
  {
    assert (items + [item])[..|items|] == items;
  }

  lemma EntriesRead(fs: Files, items: seq<Item>, base: Path, lim: Limits, out: Progress)
    requires Fold(Start(fs), items, base, lim) == Ok(out)
    ensures AllRead(items)
  {
    var f := (s: Progress, item: Item) => Step(s, item, base, lim);
    var inv := (s: Progress, d: seq<Item>) => AllRead(d);
    forall s, d, i, s' | inv(s, d) && f(s, i) == Ok(s') ensures inv(s', d + [i]) {
      StepReads(s, i, base, lim);
      AllReadSnoc(d, i, Read(i).value);
    }
    TryFoldKeeps(f, inv, Start(fs), [], items, out);
    assert [] + items == items;
  }

  // ---------------------------------------------------------------- when there is room

  /** Below the base, nothing lies in what is not a directory. */
  ghost predicate Closed(fs: Files, base: Path) {
    forall p: Path :: p in fs && base < p ==> IsDir(fs, p[..|p| - 1])
  }

  /** Some directory on the way is there and the next component is not. */
  ghost predicate Free(fs: Files, base: Path, comps: Path) { exists n :: FreeAt(fs, base, comps, n) }

  ghost predicate FreeAt(fs: Files, base: Path, comps: Path, n: int) {
    0 <= n < |comps| && Vacant(fs, base, comps[..n], comps[n])
  }

  ghost predicate Vacant(fs: Files, base: Path, parent: Path, c: Comp) {
    DirAt(fs, base, parent) && Walk(ViewOf(fs), [], base + parent, KERNEL_LINKS).path + [c] !in fs
  }

  lemma CreateIfVacant(fs: Files, base: Path, parent: Path, c: Comp, node: Node)
    ensures Create(fs, base + (parent + [c]), node).Some? <==> Vacant(fs, base, parent, c)
    ensures Vacant(fs, base, parent, c) ==>
              Create(fs, base + (parent + [c]), node).value ==
              fs[Walk(ViewOf(fs), [], base + parent, KERNEL_LINKS).path + [c] := node]
  {
    var p := base + (parent + [c]);
    assert p[..|p| - 1] == base + parent && p[|p| - 1] == c;
  }

  lemma VacantIsMissing(fs: Files, base: Path, parent: Path, c: Comp, more: Path)
    requires Vacant(fs, base, parent, c) && Plain(c)
    ensures Walk(ViewOf(fs), [], base + (parent + [c] + more), KERNEL_LINKS).NotExist?
  {
    WalkThenMissing(ViewOf(fs), [], base + parent, c, more, KERNEL_LINKS);
    assert base + parent + [c] + more == base + (parent + [c] + more);
  }

  /** In a directory that was just created there is nothing yet. */
  lemma NewDirIsEmpty(fs: Files, base: Path, at: Path, c: Comp)
    requires Closed(fs, base) && base < at && at !in fs
    ensures at + [c] !in fs
  {
    assert (at + [c])[..|at + [c]| - 1] == at && base < at + [c];
  }

  /** The directory is made, and nothing was there or is in it. */
  ghost predicate Makes(fs: Files, base: Path, comps: Path) {
    && MkdirAll(fs, base, comps).Some? && DirAt(MkdirAll(fs, base, comps).value, base, comps)
    && var fs' := MkdirAll(fs, base, comps).value;
       var w := Walk(ViewOf(fs'), [], base + comps, KERNEL_LINKS).path;
       base < w && w !in fs && forall q :: q in fs' && |q| > |w| ==> q in fs
  }

  /** Making the directories from a vacant place on: it works, and the last of them is empty. */
  lemma {:induction false} MakesFrom(fs0: Files, fs: Files, base: Path, comps: Path, n: nat)
    requires Contained(fs0, fs, base) && Closed(fs, base) && AllPlain(comps) && FreeAt(fs, base, comps, n)
    ensures Makes(fs, base, comps)
    decreases |comps|
  {
    var parent := comps[..|comps| - 1];
    FreeIsMissing(fs, base, comps, n);
    if n == |parent| {
      DirIsFound(fs, base, parent);
      MakesLast(fs0, fs, fs, base, comps);
    } else {
      ShorterFree(fs, base, comps, n);
      MakesFrom(fs0, fs, base, parent, n);
      MkdirAllContained(fs0, fs, base, parent);
      MakesNext(fs0, fs, base, comps);
    }
  }

  lemma FreeIsMissing(fs: Files, base: Path, comps: Path, n: nat)
    requires AllPlain(comps) && FreeAt(fs, base, comps, n)
    ensures Walk(ViewOf(fs), [], base + comps, KERNEL_LINKS).NotExist?
  {
    VacantIsMissing(fs, base, comps[..n], comps[n], comps[n + 1..]);
    assert comps == comps[..n] + [comps[n]] + comps[n + 1..];
  }

  lemma ShorterFree(fs: Files, base: Path, comps: Path, n: nat)
    requires AllPlain(comps) && n < |comps| - 1 && FreeAt(fs, base, comps, n)
    ensures AllPlain(comps[..|comps| - 1]) && FreeAt(fs, base, comps[..|comps| - 1], n)
  {
    var parent := comps[..|comps| - 1];
    assert parent[..n] == comps[..n] && parent[n] == comps[n];
  }

  lemma MakesNext(fs0: Files, fs: Files, base: Path, comps: Path)
    requires comps != [] && AllPlain(comps) && Closed(fs, base) && Makes(fs, base, comps[..|comps| - 1])
    requires Contained(fs0, MkdirAll(fs, base, comps[..|comps| - 1]).value, base)
    requires Walk(ViewOf(fs), [], base + comps, KERNEL_LINKS).NotExist?
    ensures Makes(fs, base, comps)
  {
    var parent, c := comps[..|comps| - 1], comps[|comps| - 1];
    var below := MkdirAll(fs, base, parent).value;
    var w := Walk(ViewOf(below), [], base + parent, KERNEL_LINKS).path;
    NewDirIsEmpty(fs, base, w, c);
    assert |w + [c]| > |w|;
    MakesLast(fs0, fs, below, base, comps);
  }

  lemma MakesLast(fs0: Files, fs: Files, below: Files, base: Path, comps: Path)
    requires comps != [] && AllPlain(comps) && MkdirAll(fs, base, comps[..|comps| - 1]) == Some(below)
    requires Contained(fs0, below, base) && Walk(ViewOf(fs), [], base + comps, KERNEL_LINKS).NotExist?
    requires Vacant(below, base, comps[..|comps| - 1], comps[|comps| - 1])
    requires var w := Walk(ViewOf(below), [], base + comps[..|comps| - 1], KERNEL_LINKS).path;
             w + [comps[|comps| - 1]] !in fs && forall q :: q in below && |q| > |w| ==> q in fs
    ensures Makes(fs, base, comps)
  {
    Created(fs0, below, base, comps);
  }

  /** Where a directory just created is found. */
  lemma Created(fs0: Files, fs: Files, base: Path, comps: Path)
    requires Contained(fs0, fs, base) && comps != [] && AllPlain(comps)
    requires Vacant(fs, base, comps[..|comps| - 1], comps[|comps| - 1])
    ensures var parent, c := comps[..|comps| - 1], comps[|comps| - 1];
            var at := Walk(ViewOf(fs), [], base + parent, KERNEL_LINKS).path + [c];
            && Create(fs, base + comps, Dir) == Some(fs[at := Dir]) && base < at
            && Walk(ViewOf(fs[at := Dir]), [], base + comps, KERNEL_LINKS) == Found(at)
  {
    var parent, c := comps[..|comps| - 1], comps[|comps| - 1];
    assert comps == parent + [c] && base + comps == base + parent + [c];
    CreateIfVacant(fs, base, parent, c, Dir);
    ResolveContained(fs0, fs, base, parent);
    var at := Walk(ViewOf(fs), [], base + parent, KERNEL_LINKS).path + [c];
    var fs' := fs[at := Dir];
    CreateContained(fs0, fs, base, comps, Dir);
    WalkGrows(ViewOf(fs), ViewOf(fs'), [], base + parent, KERNEL_LINKS);
    NamesHaveNoSlash(base, parent, ViewOf(fs'));
    WalkThenEntry(ViewOf(fs'), [], base + parent, c, KERNEL_LINKS);
  }

  lemma DirIsFound(fs: Files, base: Path, comps: Path)
    requires DirAt(fs, base, comps)
    ensures MkdirAll(fs, base, comps) == Some(fs)
  {}

  /** os.MkdirAll works if and only if the path leads to a directory or there is room for it. */
  lemma {:induction false} MkdirAllWorksExactly(fs0: Files, fs: Files, base: Path, comps: Path)
    requires Contained(fs0, fs, base) && Closed(fs, base) && AllPlain(comps)
    ensures MkdirAll(fs, base, comps).Some? <==> DirAt(fs, base, comps) || Free(fs, base, comps)
    decreases |comps|
  {
    if DirAt(fs, base, comps) {
      DirIsFound(fs, base, comps);
    } else if n :| FreeAt(fs, base, comps, n) {
      MakesFrom(fs0, fs, base, comps, n);
    } else if MkdirAll(fs, base, comps).Some? && comps != [] {
      MkdirAllWorksExactly(fs0, fs, base, comps[..|comps| - 1]);
      MadeHasRoom(fs, base, comps);
    }
  }

  lemma MadeHasRoom(fs: Files, base: Path, comps: Path)
    requires comps != [] && MkdirAll(fs, base, comps).Some? && !DirAt(fs, base, comps)
    requires DirAt(fs, base, comps[..|comps| - 1]) || Free(fs, base, comps[..|comps| - 1])
    ensures Free(fs, base, comps)
  {
    var parent, c := comps[..|comps| - 1], comps[|comps| - 1];
    assert comps == parent + [c];
    if DirAt(fs, base, parent) {
      DirIsFound(fs, base, parent);
      CreateIfVacant(fs, base, parent, c, Dir);
      assert FreeAt(fs, base, comps, |parent|);
    } else {
      ParentIsFree(fs, base, comps);
    }
  }

  /** Creating a file or a link, with its parent directories, works if and only if there is
      room for it. */
  lemma CreateBelowWorksExactly(fs0: Files, fs: Files, base: Path, comps: Path, node: Node)
    requires Contained(fs0, fs, base) && Closed(fs, base) && AllPlain(comps) && comps != []
    ensures CreateBelow(fs, base, comps, node).Some? <==> Free(fs, base, comps)
  {
    var parent, c := comps[..|comps| - 1], comps[|comps| - 1];
    assert comps == parent + [c];
    MkdirAllWorksExactly(fs0, fs, base, parent);
    if DirAt(fs, base, parent) {
      DirIsFound(fs, base, parent);
      CreateIfVacant(fs, base, parent, c, node);
      if CreateBelow(fs, base, comps, node).Some? { assert FreeAt(fs, base, comps, |parent|); }
      if n :| FreeAt(fs, base, comps, n) { LastIsFree(fs, base, comps, n); }
    } else {
      ParentIsFree(fs, base, comps);
      if n :| FreeAt(fs, base, parent, n) {
        MakesFrom(fs0, fs, base, parent, n);
        var below := MkdirAll(fs, base, parent).value;
        NewDirIsEmpty(fs, base, Walk(ViewOf(below), [], base + parent, KERNEL_LINKS).path, c);
        CreateIfVacant(below, base, parent, c, node);
      }
    }
  }

  /** With the parent directory there, only its own place matters. */
  lemma LastIsFree(fs: Files, base: Path, comps: Path, n: int)
    requires AllPlain(comps) && comps != [] && FreeAt(fs, base, comps, n) && DirAt(fs, base, comps[..|comps| - 1])
    ensures n == |comps| - 1
  {
    var parent := comps[..|comps| - 1];
    if n < |parent| {
      assert parent == comps[..n] + [comps[n]] + parent[n + 1..];
      VacantIsMissing(fs, base, comps[..n], comps[n], parent[n + 1..]);
    }
  }

  /** And without it, there is room for both or for neither. */
  lemma ParentIsFree(fs: Files, base: Path, comps: Path)
    requires comps != [] && !DirAt(fs, base, comps[..|comps| - 1])
    ensures Free(fs, base, comps) <==> Free(fs, base, comps[..|comps| - 1])
  {
    var parent := comps[..|comps| - 1];
    if n :| FreeAt(fs, base, comps, n) {
      assert n < |parent| && parent[..n] == comps[..n];
      assert FreeAt(fs, base, parent, n);
    }
    if n :| FreeAt(fs, base, parent, n) {
      assert parent[..n] == comps[..n];
      assert FreeAt(fs, base, comps, n);
    }
  }

  // ---------------------------------------------------------------- and that there is room

  lemma CreateClosed(fs0: Files, fs: Files, base: Path, comps: Path, node: Node)
    requires Contained(fs0, fs, base) && Closed(fs, base) && comps != [] && AllPlain(comps)
    requires Create(fs, base + comps, node).Some?
    ensures Closed(Create(fs, base + comps, node).value, base)
  {
    var parent, last := comps[..|comps| - 1], comps[|comps| - 1];
    LastApart(base, comps);
    CreateAdds(fs, base + parent, last, node);
    ResolveContained(fs0, fs, base, parent);
    var dir := Walk(ViewOf(fs), [], base + parent, KERNEL_LINKS).path;
    AddClosed(fs, base, dir, last, node);
  }

  lemma AddClosed(fs: Files, base: Path, dir: Path, last: Comp, node: Node)
    requires Closed(fs, base) && base <= dir && IsDir(fs, dir) && dir + [last] !in fs
    ensures Closed(fs[dir + [last] := node], base)
  {
    var at := dir + [last];
    forall p: Path | p in fs[at := node] && base < p ensures IsDir(fs[at := node], p[..|p| - 1]) {
      if p == at { assert p[..|p| - 1] == dir; } else { assert IsDir(fs, p[..|p| - 1]); }
    }
  }

  lemma {:induction false} MkdirAllClosed(fs0: Files, fs: Files, base: Path, comps: Path)
    requires Contained(fs0, fs, base) && Closed(fs, base) && AllPlain(comps)
    ensures MkdirAll(fs, base, comps).Some? ==> Closed(MkdirAll(fs, base, comps).value, base)
    decreases |comps|
  {
    if comps != [] && MkdirAll(fs, base, comps).Some? && MkdirAll(fs, base, comps).value != fs {
      var parent := comps[..|comps| - 1];
      MkdirAllMade(fs, base, comps);
      MkdirAllClosed(fs0, fs, base, parent);
      MkdirAllContained(fs0, fs, base, parent);
      CreateClosed(fs0, MkdirAll(fs, base, parent).value, base, comps, Dir);
    }
  }

  lemma CreateBelowClosed(fs0: Files, fs: Files, base: Path, comps: Path, node: Node)
    requires Contained(fs0, fs, base) && Closed(fs, base) && comps != [] && AllPlain(comps)
    ensures CreateBelow(fs, base, comps, node).Some? ==> Closed(CreateBelow(fs, base, comps, node).value, base)
  {
    var parent := comps[..|comps| - 1];
    MkdirAllContained(fs0, fs, base, parent);
    MkdirAllClosed(fs0, fs, base, parent);
    if CreateBelow(fs, base, comps, node).Some? {
      CreateClosed(fs0, MkdirAll(fs, base, parent).value, base, comps, node);
    }
  }

  lemma StoreClosed(fs0: Files, st: Progress, e: Entry, base: Path, lim: Limits)
    requires Contained(fs0, st.fs, base) && Closed(st.fs, base) && SafeComps(e.comps) && Store(st, e, base, lim).Ok?
    ensures Closed(Store(st, e, base, lim).value.fs, base)
  {
    match e.kind {
      case DirEntry => MkdirAllClosed(fs0, st.fs, base, e.comps);
      case RegEntry(_, banner) => CreateBelowClosed(fs0, st.fs, base, e.comps, File(banner));
      case LinkEntry(text) => CreateBelowClosed(fs0, st.fs, base, e.comps, Link(LinkTarget(text)));
    }
  }

  // ---------------------------------------------------------------- link texts

  /** The components that name something. */
  function Plains(cs: seq<string>): Path {
    if cs == [] then [] else (if cs[0] == "" || cs[0] == "." then [] else [cs[0]]) + Plains(cs[1..])
  }

  lemma {:induction false} CleanWithoutParents(stack: Path, rest: seq<string>)
    requires ".." !in rest
    ensures CleanComps(false, stack, rest) == stack + Plains(rest)
    decreases rest
  {
    if rest != [] {
      assert ".." !in rest[1..];
      var c := rest[0];
      var own: Path := if c == "" || c == "." then [] else [c];
      assert stack + [] == stack;
      CleanWithoutParents(stack + own, rest[1..]);
      assert stack + own + Plains(rest[1..]) == stack + (own + Plains(rest[1..]));
    } else {
      assert stack + [] == stack;
    }
  }

  lemma {:induction false} PlainsConcat(a: seq<string>, b: seq<string>)
    ensures Plains(a + b) == Plains(a) + Plains(b)
  {
    if a == [] {
      assert a + b == b;
    } else {
      PlainsConcat(a[1..], b);
      var own: Path := if a[0] == "" || a[0] == "." then [] else [a[0]];
      assert (a + b)[1..] == a[1..] + b && (a + b)[0] == a[0];
      assert own + (Plains(a[1..]) + Plains(b)) == own + Plains(a[1..]) + Plains(b);
    }
  }

  lemma {:induction false} PlainsOfPlain(p: Path)
    requires AllPlain(p)
    ensures Plains(p) == p
  {
    if p != [] {
      assert AllPlain(p[1..]);
      PlainsOfPlain(p[1..]);
      assert p == [p[0]] + p[1..];
    }
  }

  lemma {:induction false} PlainsMembers(cs: seq<string>)
    ensures forall c :: c in Plains(cs) <==> c in cs && c != "" && c != "."
  {
    if cs != [] {
      PlainsMembers(cs[1..]);
      assert cs == [cs[0]] + cs[1..];
    }
  }

  ghost predicate SomeHolds(p: seq<string>, c: char) { exists i :: 0 <= i < |p| && c in p[i] }

  lemma SomeHoldsCons(x: string, p: seq<string>, c: char)
    ensures SomeHolds([x] + p, c) <==> c in x || SomeHolds(p, c)
  {
    var all := [x] + p;
    if c in x { assert c in all[0]; }
    if i :| 0 <= i < |p| && c in p[i] { assert c in all[i + 1]; }
    if i :| 0 <= i < |all| && c in all[i] { assert i == 0 || c in p[i - 1]; }
  }

  /** The text holds the character exactly when one of its components does. */
  lemma {:induction false} CharInSplit(s: string, c: char)
    requires c != '/'
    ensures c in s <==> SomeHolds(Split(s), c)
  {
    if s != "" {
      CharInSplit(s[1..], c);
      var r := Split(s[1..]);
      assert s == [s[0]] + s[1..];
      SomeHoldsCons(r[0], r[1..], c);
      assert r == [r[0]] + r[1..];
      if s[0] == '/' { SomeHoldsCons("", r, c); } else { SomeHoldsCons([s[0]] + r[0], r[1..], c); }
    }
  }

  lemma CharInPlains(s: string, c: char)
    requires c != '/' && c != '.'
    ensures c in s <==> SomeHolds(Plains(Split(s)), c)
  {
    CharInSplit(s, c);
    PlainsMembers(Split(s));
    if i :| 0 <= i < |Split(s)| && c in Split(s)[i] { assert Split(s)[i] in Plains(Split(s)); }
    if i :| 0 <= i < |Plains(Split(s))| && c in Plains(Split(s))[i] { assert Plains(Split(s))[i] in Split(s); }
  }

  lemma CharInJoin(st: Path, c: char)
    requires st != [] && AllPlain(st) && c != '/'
    ensures c in Join(st) <==> SomeHolds(st, c)
  {
    SplitInvertsJoin(st);
    CharInSplit(Join(st), c);
  }

  lemma PartContains(s: string, c: string, sub: string)
    requires c in Split(s) && sub <= c
    ensures Contains(s, sub)
  {
    ComponentIsSubstring(s, c);
    var i :| 0 <= i <= |s| && c <= s[i..];
    assert sub <= s[i..];
  }

  /** The stack of a link name joined to its entry's directory. */
  lemma JoinedStack(comps: Path, text: string)
    requires SafeComps(comps) && !Rooted(text) && ".." !in Split(text)
    ensures var st := comps[..|comps| - 1] + Plains(Split(text));
            && AllPlain(st) && JoinDir(comps, text) == (if st == [] then "." else Join(st))
  {
    var parent := comps[..|comps| - 1];
    assert AllPlain(parent);
    PlainsArePlain(text);
    JoinedText(parent, if |comps| == 1 then "." else Join(parent), text);
  }

  lemma PlainsArePlain(text: string)
    requires ".." !in Split(text)
    ensures AllPlain(Plains(Split(text)))
  {
    PlainsMembers(Split(text));
    var p := Plains(Split(text));
    forall i | 0 <= i < |p| ensures Plain(p[i]) { assert p[i] in p; }
  }

  lemma JoinedText(parent: Path, dir: string, text: string)
    requires AllPlain(parent) && dir == (if parent == [] then "." else Join(parent))
    requires !Rooted(text) && ".." !in Split(text)
    ensures var st := parent + Plains(Split(text));
            Clean(if text == "" then dir else dir + "/" + text) == (if st == [] then "." else Join(st))
  {
    var s := if text == "" then dir else dir + "/" + text;
    DirSplits(parent, dir);
    if text == "" {
      assert Plains([""]) == [] && parent + [] == parent;
      CleanOfPlains(dir);
    } else {
      SplitAtSlash(dir, text);
      PlainsConcat(Split(dir), Split(text));
      CleanOfPlains(s);
    }
  }

  lemma CleanOfPlains(s: string)
    requires !Rooted(s) && ".." !in Split(s)
    ensures var st := Plains(Split(s)); Clean(s) == if st == [] then "." else Join(st)
  {
    CleanWithoutParents([], Split(s));
    assert [] + Plains(Split(s)) == Plains(Split(s));
  }

  lemma DirSplits(parent: Path, dir: string)
    requires AllPlain(parent) && dir == (if parent == [] then "." else Join(parent))
    ensures dir != "" && !Rooted(dir) && Plains(Split(dir)) == parent && ".." !in Split(dir)
  {
    if parent == [] {
      SplitOfPlain(".");
    } else {
      SplitInvertsJoin(parent);
      JoinFirst(parent);
      PlainsOfPlain(parent);
    }
  }

  lemma NoDotSlash(st: Path)
    requires AllPlain(st) && st != []
    ensures !("./" <= Join(st))
  {
    SplitInvertsJoin(st);
    if "./" <= Join(st) {
      SplitAtSlash(".", Join(st)[2..]);
      assert Join(st) == "." + "/" + Join(st)[2..];
      SplitOfPlain(".");
    }
  }

  /** What the filter makes of a joined stack. */
  lemma JoinedAccepted(st: Path)
    requires AllPlain(st) && (st != [] ==> !(".." <= st[0]))
    ensures SafeArchivePath(if st == [] then "." else Join(st)).Ok? <==> st != [] && '\0' !in Join(st)
  {
    if st == [] {
      SplitOfPlain(".");
    } else {
      RelativeReadsBack(st);
      JoinFirst(st);
      NoDotSlash(st);
      SafeArchivePathExact(Join(st));
    }
  }

  lemma SomeHoldsConcat(a: seq<string>, b: seq<string>, c: char)
    ensures SomeHolds(a + b, c) <==> SomeHolds(a, c) || SomeHolds(b, c)
  {
    if i :| 0 <= i < |a| && c in a[i] { assert c in (a + b)[i]; }
    if i :| 0 <= i < |b| && c in b[i] { assert c in (a + b)[|a| + i]; }
    if i :| 0 <= i < |a + b| && c in (a + b)[i] { assert if i < |a| then c in a[i] else c in b[i - |a|]; }
  }

  lemma NulInJoined(comps: Path, text: string)
    requires SafeComps(comps) && '\0' !in Join(comps)
    ensures var st := comps[..|comps| - 1] + Plains(Split(text));
            AllPlain(st) && st != [] ==> ('\0' in Join(st) <==> '\0' in text)
  {
    var parent, plains := comps[..|comps| - 1], Plains(Split(text));
    CharInPlains(text, '\0');
    CharInJoin(comps, '\0');
    SomeHoldsConcat(parent, comps[|comps| - 1..], '\0');
    assert parent + comps[|comps| - 1..] == comps;
    SomeHoldsConcat(parent, plains, '\0');
    if AllPlain(parent + plains) && parent + plains != [] { CharInJoin(parent + plains, '\0'); }
  }

  lemma SomePlain(text: string)
    ensures Plains(Split(text)) != [] <==> exists c :: c in Split(text) && c != "" && c != "."
  {
    PlainsMembers(Split(text));
    if Plains(Split(text)) != [] { assert Plains(Split(text))[0] in Plains(Split(text)); }
  }

  lemma FirstHasNoDots(comps: Path, text: string)
    requires SafeComps(comps) && !Contains(text, "..")
    ensures var st := comps[..|comps| - 1] + Plains(Split(text)); st != [] ==> !(".." <= st[0])
  {
    var plains := Plains(Split(text));
    PlainsMembers(Split(text));
    if |comps| == 1 && plains != [] && ".." <= plains[0] {
      assert plains[0] in plains;
      PartContains(text, plains[0], "..");
    }
  }

  /** A link text is accepted if and only if it is relative, holds neither ".." nor NUL, and
      names something together with the entry's directory. */
  lemma LinkAcceptedExactly(comps: Path, text: string)
    requires SafeComps(comps) && '\0' !in Join(comps)
    ensures LinkAccepted(comps, text) <==> LinkTextOk(comps, text)
  {
    if !Rooted(text) && !Contains(text, "..") {
      if ".." in Split(text) { PartContains(text, "..", ".."); }
      JoinedStack(comps, text);
      FirstHasNoDots(comps, text);
      JoinedAccepted(comps[..|comps| - 1] + Plains(Split(text)));
      NulInJoined(comps, text);
      SomePlain(text);
    }
  }

  predicate LinkTextOk(comps: Path, text: string) {
    && (text == "" || text[0] != '/') && !Contains(text, "..") && '\0' !in text
    && (|comps| > 1 || exists c :: c in Split(text) && c != "" && c != ".")
  }

  // ---------------------------------------------------------------- the verdict on an entry

  /** Nothing in the limits and in what came before speaks against an entry of that name. */
  ghost predicate Welcome(st: Progress, hdr: Header, lim: Limits) {
    && (lim.maxEntries > 0 ==> st.entries < lim.maxEntries)
    && SafeArchivePath(hdr.name).Ok? && SafeArchivePath(hdr.name).value !in st.seen
  }

  /** What must be declared, and the disk have room for. */
  ghost predicate Fits(fs: Files, total: int, comps: Path, kind: Kind, base: Path, lim: Limits) {
    match kind
    case DirEntry => DirAt(fs, base, comps) || Free(fs, base, comps)
    case RegEntry(size, _) => (lim.maxExpanded > 0 ==> Wrap64(total + size) <= lim.maxExpanded) && Free(fs, base, comps)
    case LinkEntry(text) => text != "" && LinkTextOk(comps, text) && Free(fs, base, comps)
    case OtherEntry => false
  }

  function NamedComps(hdr: Header): Path
    requires SafeArchivePath(hdr.name).Ok?
  {
    Split(SafeArchivePath(hdr.name).value)
  }

  /** An entry is extracted if and only if the reader delivers it, the limits and the names so
      far allow it, its header declares something allowed, there is room for it and the disk
      takes it. */
  lemma AcceptedExactly(fs0: Files, st: Progress, item: Item, base: Path, lim: Limits)
    requires Contained(fs0, st.fs, base) && Closed(st.fs, base)
    ensures Step(st, item, base, lim).Ok? <==>
            && item.Next? && item.diskOk && Welcome(st, item.hdr, lim)
            && Fits(st.fs, st.total, NamedComps(item.hdr), item.hdr.kind, base, lim)
  {
    if item.Next? && Welcome(st, item.hdr, lim) {
      var e := WelcomeEntry(st, item, base, lim);
      StoredExactly(fs0, st.(entries := st.entries + 1, seen := st.seen + {e.name}), e, base, lim);
    } else {
      Unwelcome(st, item, base, lim);
    }
  }

  /** A welcome entry comes to be stored. */
  lemma WelcomeEntry(st: Progress, item: Item, base: Path, lim: Limits) returns (e: Entry)
    requires item.Next? && Welcome(st, item.hdr, lim)
    ensures var p := SafeArchivePath(item.hdr.name).value; e == Entry(p, Split(p), item.hdr.kind, item.diskOk)
    ensures SafeComps(e.comps) && '\0' !in Join(e.comps)
    ensures Step(st, item, base, lim) == Store(st.(entries := st.entries + 1, seen := st.seen + {e.name}), e, base, lim)
  {
    e := ReadEntry(item);
    StepAdmits(st, item, e, base, lim);
  }

  lemma ReadEntry(item: Item) returns (e: Entry)
    requires item.Next? && SafeArchivePath(item.hdr.name).Ok?
    ensures var p := SafeArchivePath(item.hdr.name).value; e == Entry(p, Split(p), item.hdr.kind, item.diskOk)
    ensures Read(item) == Ok(e) && SafeComps(e.comps) && '\0' !in Join(e.comps)
  {
    e := Read(item).value;
    ReadIsSafe(item);
    NoNul(item.hdr.name);
  }

  lemma Unwelcome(st: Progress, item: Item, base: Path, lim: Limits)
    requires item.ReadError? || !Welcome(st, item.hdr, lim)
    ensures Step(st, item, base, lim) ==
            Err(if item.ReadError? then ReadFailed
                else if lim.maxEntries > 0 && st.entries >= lim.maxEntries then TooManyEntries
                else if SafeArchivePath(item.hdr.name).Err? then UnsafePath
                else Duplicate)
  {}

  lemma NoNul(name: string)
    requires SafeArchivePath(name).Ok?
    ensures var p := SafeArchivePath(name).value; p == Join(Split(p)) && '\0' !in p
  {
    SafeArchivePathExact(name);
  }

  lemma StoredExactly(fs0: Files, st: Progress, e: Entry, base: Path, lim: Limits)
    requires Contained(fs0, st.fs, base) && Closed(st.fs, base) && SafeComps(e.comps) && '\0' !in Join(e.comps)
    ensures Store(st, e, base, lim).Ok? <==> e.diskOk && Fits(st.fs, st.total, e.comps, e.kind, base, lim)
  {
    match e.kind {
      case DirEntry => DirStored(fs0, st, e, base, lim);
      case RegEntry(_, _) => FileStored(fs0, st, e, base, lim);
      case LinkEntry(_) => LinkStored(fs0, st, e, base, lim);
      case OtherEntry =>
    }
  }

  lemma DirStored(fs0: Files, st: Progress, e: Entry, base: Path, lim: Limits)
    requires Contained(fs0, st.fs, base) && Closed(st.fs, base) && SafeComps(e.comps) && e.kind.DirEntry?
    ensures Store(st, e, base, lim).Ok? <==> e.diskOk && Fits(st.fs, st.total, e.comps, e.kind, base, lim)
  {
    MkdirAllWorksExactly(fs0, st.fs, base, e.comps);
  }

  lemma FileStored(fs0: Files, st: Progress, e: Entry, base: Path, lim: Limits)
    requires Contained(fs0, st.fs, base) && Closed(st.fs, base) && SafeComps(e.comps) && e.kind.RegEntry?
    ensures Store(st, e, base, lim).Ok? <==> e.diskOk && Fits(st.fs, st.total, e.comps, e.kind, base, lim)
  {
    CreateBelowWorksExactly(fs0, st.fs, base, e.comps, File(e.kind.banner));
    StoresFile(st, e, base, lim, CreateBelow(st.fs, base, e.comps, File(e.kind.banner)));
  }

  lemma StoresFile(st: Progress, e: Entry, base: Path, lim: Limits, made: Option<Files>)
    requires e.comps != [] && e.kind.RegEntry? && made == CreateBelow(st.fs, base, e.comps, File(e.kind.banner))
    ensures Store(st, e, base, lim).Ok? <==>
            e.diskOk && (lim.maxExpanded > 0 ==> Wrap64(st.total + e.kind.size) <= lim.maxExpanded) && made.Some?
  {}

  lemma LinkStored(fs0: Files, st: Progress, e: Entry, base: Path, lim: Limits)
    requires Contained(fs0, st.fs, base) && Closed(st.fs, base) && SafeComps(e.comps) && e.kind.LinkEntry?
    requires '\0' !in Join(e.comps)
    ensures Store(st, e, base, lim).Ok? <==> e.diskOk && Fits(st.fs, st.total, e.comps, e.kind, base, lim)
  {
    var text := e.kind.linkname;
    LinkAcceptedExactly(e.comps, text);
    CreateBelowWorksExactly(fs0, st.fs, base, e.comps, Link(LinkTarget(text)));
    StoresLink(st, e, base, lim, LinkAccepted(e.comps, text));
  }

  lemma StoresLink(st: Progress, e: Entry, base: Path, lim: Limits, accepted: bool)
    requires e.comps != [] && e.kind.LinkEntry? && accepted == LinkAccepted(e.comps, e.kind.linkname)
    ensures Store(st, e, base, lim).Ok? <==>
            && e.diskOk && accepted && e.kind.linkname != ""
            && CreateBelow(st.fs, base, e.comps, Link(LinkTarget(e.kind.linkname))).Some?
  {}

  /** The first reason, in the order of the checks, why an entry is refused. */
  function Reason(st: Progress, item: Item, lim: Limits): Error {
    if item.ReadError? then ReadFailed
    else if lim.maxEntries > 0 && st.entries >= lim.maxEntries then TooManyEntries
    else if SafeArchivePath(item.hdr.name).Err? then UnsafePath
    else if SafeArchivePath(item.hdr.name).value in st.seen then Duplicate
    else ReasonOf(st.total, NamedComps(item.hdr), item.hdr.kind, lim)
  }

  function ReasonOf(total: int, comps: Path, kind: Kind, lim: Limits): Error {
    match kind
    case DirEntry => DiskFailed
    case RegEntry(size, _) =>
      if lim.maxExpanded > 0 && Wrap64(total + size) > lim.maxExpanded then TooLarge else DiskFailed
    case LinkEntry(text) => if LinkTextOk(comps, text) then DiskFailed else UnsafeLink
    case OtherEntry => Unsupported
  }

  lemma RefusedExactly(st: Progress, item: Item, base: Path, lim: Limits)
    ensures Step(st, item, base, lim).Err? ==> Step(st, item, base, lim).error == Reason(st, item, lim)
  {
    if item.Next? && Welcome(st, item.hdr, lim) {
      var e := WelcomeEntry(st, item, base, lim);
      StoreRefuses(st.(entries := st.entries + 1, seen := st.seen + {e.name}), e, base, lim);
    } else {
      Unwelcome(st, item, base, lim);
    }
  }

  lemma StoreRefuses(st: Progress, e: Entry, base: Path, lim: Limits)
    requires SafeComps(e.comps) && '\0' !in Join(e.comps)
    ensures Store(st, e, base, lim).Err? ==> Store(st, e, base, lim).error == ReasonOf(st.total, e.comps, e.kind, lim)
  {
    if e.kind.LinkEntry? { LinkAcceptedExactly(e.comps, e.kind.linkname); }
  }

  /** Every state that extraction reaches is one that these verdicts are about. */
  lemma ReachedIsClosed(fs: Files, items: seq<Item>, base: Path, lim: Limits, st: Progress)
    requires FreshDir(fs, base) && Fold(Start(fs), items, base, lim) == Ok(st)
    ensures Contained(fs, st.fs, base) && Closed(st.fs, base)
  {
    FoldAllHandled(fs, items, base, lim, st);
  }
}
