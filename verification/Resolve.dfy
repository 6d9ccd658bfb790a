/** Symbolic-link resolution, as filepath.EvalSymlinks and the kernel do it: walk the
    components, look every prefix up, splice link targets into the remaining path and
    give up after a bounded number of links. */
module Resolve {
  import opened Wrappers
  import opened Paths

  datatype Target = Target(absolute: bool, comps: seq<Comp>)

  /** A regular file is told apart by what it prints when run with --version. */
  datatype Node = Dir | File(banner: string) | Link(target: Target)

  /** What lstat answers for a path; the root itself is never looked up. */
  type View = Path -> Option<Node>

  datatype Outcome = Found(path: Path) | NotExist | NotDir | TooManyLinks

  const EVAL_LINKS: nat := 255
  const KERNEL_LINKS: nat := 40

  function Up(p: Path): Path { if p == [] then [] else p[..|p| - 1] }

  function Walk(look: View, dest: Path, rest: seq<Comp>, links: nat): Outcome
    decreases links, |rest|
  {
    if rest == [] then Found(dest)
    else
      var c, tail := rest[0], rest[1..];
      if c == "" || c == "." then Walk(look, dest, tail, links)
      else if c == ".." then Walk(look, Up(dest), tail, links)
      else
        match look(dest + [c])
        case None => NotExist
        case Some(Dir) => Walk(look, dest + [c], tail, links)
        case Some(File(_)) => if tail == [] then Found(dest + [c]) else NotDir
        case Some(Link(t)) =>
          if links == 0 then TooManyLinks
          else Walk(look, if t.absolute then [] else dest, t.comps + tail, links - 1)
  }

  function EvalSymlinks(look: View, p: Path): Outcome { Walk(look, [], p, EVAL_LINKS) }

  function Lift(base: Path, o: Outcome): Outcome {
    if o.Found? then Found(base + o.path) else o
  }

  /** A link that cannot climb: relative, and without a parent component. */
  predicate Tame(t: Target) { !t.absolute && ".." !in t.comps }

  ghost predicate TameBelow(look: View, base: Path) {
    forall p: Path :: p != [] ==>
      match look(base + p) case Some(Link(t)) => Tame(t) case _ => true
  }

  /** The part of a view below a directory, as a view of its own. */
  function Below(look: View, base: Path): View { (p: Path) => look(base + p) }

  // ---------------------------------------------------------------- confinement

  /** Walking below a directory whose links are tame is walking in that directory
      alone: the answer is the one computed from the part of the view below it. */
  lemma {:induction false} WalkBelow(look: View, base: Path, inner: View, p: Path, rest: seq<Comp>, links: nat)
    requires TameBelow(look, base) && ".." !in rest
    requires forall q: Path :: q != [] ==> inner(q) == look(base + q)
    ensures Walk(look, base + p, rest, links) == Lift(base, Walk(inner, p, rest, links))
    decreases links, |rest|
  {
    if rest != [] {
      var c, tail := rest[0], rest[1..];
      if c == "" || c == "." {
        WalkBelow(look, base, inner, p, tail, links);
      } else {
        assert base + p + [c] == base + (p + [c]);
        match inner(p + [c]) {
          case None =>
          case Some(Dir) => WalkBelow(look, base, inner, p + [c], tail, links);
          case Some(File(_)) =>
          case Some(Link(t)) =>
            assert Tame(t);
            if links > 0 { WalkBelow(look, base, inner, p, t.comps + tail, links - 1); }
        }
      }
    }
  }

  /** Nothing that starts below a tame directory and follows any chain of links, of any
      length, ends outside it, and what lies outside has no say in the answer. */
  lemma Confinement(look: View, other: View, base: Path, rest: seq<Comp>, links: nat)
    requires TameBelow(look, base) && ".." !in rest
    requires forall q: Path :: q != [] ==> other(base + q) == look(base + q)
    ensures Walk(look, base, rest, links).Found? ==> base <= Walk(look, base, rest, links).path
    ensures Walk(other, base, rest, links) == Walk(look, base, rest, links)
  {
    var inner := Below(look, base);
    assert base + [] == base;
    WalkBelow(look, base, inner, [], rest, links);
    forall p: Path | p != []
      ensures match other(base + p) case Some(Link(t)) => Tame(t) case _ => true
    {
      assert other(base + p) == look(base + p);
    }
    WalkBelow(other, base, inner, [], rest, links);
  }

  // ---------------------------------------------------------------- canonical paths

  /** A path every component of which is a real directory entry: all proper prefixes
      are directories and the last component is not a link. */
  ghost predicate Canonical(look: View, p: Path) {
    && AllPlain(p)
    && (forall i :: 1 <= i < |p| ==> look(p[..i]) == Some(Dir))
    && (p != [] ==> look(p).Some? && !look(p).value.Link?)
  }

  ghost predicate CanonicalDir(look: View, p: Path) {
    Canonical(look, p) && (p != [] ==> look(p) == Some(Dir))
  }

  lemma CanonicalDirExtends(look: View, p: Path, c: Comp)
    requires CanonicalDir(look, p) && Plain(c)
    requires look(p + [c]).Some? && !look(p + [c]).value.Link?
    ensures Canonical(look, p + [c])
    ensures look(p + [c]) == Some(Dir) ==> CanonicalDir(look, p + [c])
  {
    var q := p + [c];
    forall i | 1 <= i < |q| ensures look(q[..i]) == Some(Dir) {
      assert q[..i] == if i == |p| then p else p[..i];
    }
  }

  lemma CanonicalDirUp(look: View, p: Path)
    requires CanonicalDir(look, p)
    ensures CanonicalDir(look, Up(p))
  {
    var q := Up(p);
    if q != [] { assert q == p[..|p| - 1]; }
    forall i | 1 <= i < |q| ensures look(q[..i]) == Some(Dir) { assert q[..i] == p[..i]; }
  }

  /** Whatever a view answers, its link targets are split texts. */
  ghost predicate SplitLinks(look: View) {
    forall p: Path :: match look(p) case Some(Link(t)) => (forall c :: c in t.comps ==> NoSlash(c)) case _ => true
  }

  /** Resolution answers with canonical paths only. */
  lemma {:induction false} WalkCanonical(look: View, dest: Path, rest: seq<Comp>, links: nat)
    requires CanonicalDir(look, dest) && SplitLinks(look)
    requires forall c :: c in rest ==> NoSlash(c)
    ensures var o := Walk(look, dest, rest, links); o.Found? ==> Canonical(look, o.path)
    decreases links, |rest|
  {
    if rest != [] {
      var c, tail := rest[0], rest[1..];
      if c == "" || c == "." {
        WalkCanonical(look, dest, tail, links);
      } else if c == ".." {
        CanonicalDirUp(look, dest);
        WalkCanonical(look, Up(dest), tail, links);
      } else {
        match look(dest + [c]) {
          case None =>
          case Some(Dir) =>
            CanonicalDirExtends(look, dest, c);
            WalkCanonical(look, dest + [c], tail, links);
          case Some(File(_)) => CanonicalDirExtends(look, dest, c);
          case Some(Link(t)) =>
            if links > 0 { WalkCanonical(look, if t.absolute then [] else dest, t.comps + tail, links - 1); }
        }
      }
    }
  }

  /** Walking down real directories spends no links and loses nothing. */
  lemma {:induction false} WalkDown(look: View, dest: Path, down: Path, rest: seq<Comp>, links: nat)
    requires AllPlain(down)
    requires forall i :: 1 <= i <= |down| ==> look(dest + down[..i]) == Some(Dir)
    ensures Walk(look, dest, down + rest, links) == Walk(look, dest + down, rest, links)
    decreases |down|
  {
    if down == [] {
      assert down + rest == rest && dest + down == dest;
    } else {
      var c := down[0];
      assert (down + rest)[1..] == down[1..] + rest;
      assert dest + [c] == dest + down[..1];
      forall i | 1 <= i <= |down[1..]| ensures look(dest + [c] + down[1..][..i]) == Some(Dir) {
        assert dest + [c] + down[1..][..i] == dest + down[..i + 1];
      }
      WalkDown(look, dest + [c], down[1..], rest, links);
      assert dest + [c] + down[1..] == dest + down;
    }
  }

  /** A canonical directory is entered as written. */
  lemma WalkFromRoot(look: View, base: Path, rest: seq<Comp>, links: nat)
    requires CanonicalDir(look, base)
    ensures Walk(look, [], base + rest, links) == Walk(look, base, rest, links)
  {
    forall i | 1 <= i <= |base| ensures look([] + base[..i]) == Some(Dir) {
      assert [] + base[..i] == base[..i];
      if i == |base| { assert base[..i] == base; }
    }
    WalkDown(look, [], base, rest, links);
    assert [] + base == base;
  }

  /** An entry of a canonical directory: missing, or a relative link read in place. */
  lemma WalkToEntry(look: View, base: Path, name: Comp, links: nat)
    requires CanonicalDir(look, base) && Plain(name) && links > 0
    ensures look(base + [name]) == None ==> Walk(look, [], base + [name], links) == NotExist
    ensures match look(base + [name])
            case Some(Link(t)) =>
              !t.absolute ==> Walk(look, [], base + [name], links) == Walk(look, base, t.comps, links - 1)
            case _ => true
  {
    WalkFromRoot(look, base, [name], links);
    assert [name][1..] == [];
    match look(base + [name]) {
      case Some(Link(t)) => assert t.comps + [] == t.comps;
      case _ =>
    }
  }

  /** A canonical path resolves to itself without following a link, so resolution is
      idempotent. */
  lemma WalkFixesCanonical(look: View, p: Path, links: nat)
    requires Canonical(look, p)
    ensures Walk(look, [], p, links) == Found(p)
  {
    if p != [] {
      var front, last := p[..|p| - 1], p[|p| - 1];
      assert p == front + [last];
      forall i | 1 <= i <= |front| ensures look([] + front[..i]) == Some(Dir) {
        assert [] + front[..i] == p[..i];
      }
      WalkDown(look, [], front, [last], links);
      assert [] + front == front && [last][1..] == [];
    }
  }

  // ---------------------------------------------------------------- link budgets and growth

  /** A resolution that succeeds within a link budget succeeds alike within any larger. */
  lemma {:induction false} WalkBudget(look: View, dest: Path, rest: seq<Comp>, links: nat, more: nat)
    requires links <= more && Walk(look, dest, rest, links).Found?
    ensures Walk(look, dest, rest, more) == Walk(look, dest, rest, links)
    decreases links, |rest|
  {
    if rest != [] {
      var c, tail := rest[0], rest[1..];
      if c == "" || c == "." {
        WalkBudget(look, dest, tail, links, more);
      } else if c == ".." {
        WalkBudget(look, Up(dest), tail, links, more);
      } else {
        match look(dest + [c]) {
          case Some(Dir) => WalkBudget(look, dest + [c], tail, links, more);
          case Some(Link(t)) => WalkBudget(look, if t.absolute then [] else dest, t.comps + tail, links - 1, more - 1);
          case _ =>
        }
      }
    }
  }

  ghost predicate Grows(look: View, look': View) {
    forall p: Path :: look(p).Some? ==> look'(p) == look(p)
  }

  /** Adding entries never changes an answer already given, other than that nothing is there. */
  lemma {:induction false} WalkGrows(look: View, look': View, dest: Path, rest: seq<Comp>, links: nat)
    requires Grows(look, look') && !Walk(look, dest, rest, links).NotExist?
    ensures Walk(look', dest, rest, links) == Walk(look, dest, rest, links)
    decreases links, |rest|
  {
    if rest != [] {
      var c, tail := rest[0], rest[1..];
      if c == "" || c == "." {
        WalkGrows(look, look', dest, tail, links);
      } else if c == ".." {
        WalkGrows(look, look', Up(dest), tail, links);
      } else {
        match look(dest + [c]) {
          case Some(Dir) => WalkGrows(look, look', dest + [c], tail, links);
          case Some(Link(t)) =>
            if links > 0 { WalkGrows(look, look', if t.absolute then [] else dest, t.comps + tail, links - 1); }
          case _ =>
        }
      }
    }
  }

  /** Once a directory is reached, what is in it, other than a link, is reached within the
      same budget. */
  lemma {:induction false} WalkThenEntry(look: View, dest: Path, rest: seq<Comp>, c: Comp, links: nat)
    requires CanonicalDir(look, dest) && SplitLinks(look)
    requires Plain(c) && forall d :: d in rest ==> NoSlash(d)
    requires var o := Walk(look, dest, rest, links);
             o.Found? && (o.path == [] || look(o.path) == Some(Dir)) &&
             look(o.path + [c]).Some? && !look(o.path + [c]).value.Link?
    ensures Walk(look, dest, rest + [c], links) == Found(Walk(look, dest, rest, links).path + [c])
    decreases links, |rest|
  {
    if rest == [] {
      assert rest + [c] == [c] && [c][1..] == [];
    } else {
      var d, tail := rest[0], rest[1..];
      assert (rest + [c])[1..] == tail + [c];
      if d == "" || d == "." {
        WalkThenEntry(look, dest, tail, c, links);
      } else if d == ".." {
        CanonicalDirUp(look, dest);
        WalkThenEntry(look, Up(dest), tail, c, links);
      } else {
        match look(dest + [d]) {
          case Some(Dir) =>
            CanonicalDirExtends(look, dest, d);
            WalkThenEntry(look, dest + [d], tail, c, links);
          case Some(Link(t)) =>
            assert t.comps + (tail + [c]) == t.comps + tail + [c];
            WalkThenEntry(look, if t.absolute then [] else dest, t.comps + tail, c, links - 1);
          case _ =>
        }
      }
    }
  }

  /** And what is not in it is missing, whatever was to come after. */
  lemma {:induction false} WalkThenMissing(look: View, dest: Path, rest: seq<Comp>, c: Comp, more: seq<Comp>,
                                           links: nat)
    requires Plain(c) && Walk(look, dest, rest, links).Found?
    requires look(Walk(look, dest, rest, links).path + [c]).None?
    ensures Walk(look, dest, rest + [c] + more, links).NotExist? || FileBefore(look, dest, rest, links)
    decreases links, |rest|
  {
    if rest == [] {
      assert rest + [c] + more == [c] + more;
    } else {
      var d, tail := rest[0], rest[1..];
      assert (rest + [c] + more)[1..] == tail + [c] + more;
      if d == "" || d == "." {
        WalkThenMissing(look, dest, tail, c, more, links);
      } else if d == ".." {
        WalkThenMissing(look, Up(dest), tail, c, more, links);
      } else {
        match look(dest + [d]) {
          case Some(Dir) => WalkThenMissing(look, dest + [d], tail, c, more, links);
          case Some(Link(t)) =>
            assert t.comps + (tail + [c] + more) == t.comps + tail + [c] + more;
            WalkThenMissing(look, if t.absolute then [] else dest, t.comps + tail, c, more, links - 1);
          case _ =>
        }
      }
    }
  }

  /** The walk ends in a file, which nothing can come after. */
  ghost predicate FileBefore(look: View, dest: Path, rest: seq<Comp>, links: nat) {
    var w := Walk(look, dest, rest, links);
    w.Found? && w.path != [] && look(w.path).Some? && look(w.path).value.File?
  }

  // ---------------------------------------------------------------- what the outcomes mean

  /** A link to itself is followed until the links run out. */
  lemma {:induction false} SelfLinkLoops(look: View, dest: Path, c: Comp, links: nat)
    requires Plain(c) && look(dest + [c]) == Some(Link(Target(false, [c])))
    ensures Walk(look, dest, [c], links).TooManyLinks?
    decreases links
  {
    assert [c][1..] == [] && [c] + [] == [c];
    if links > 0 { SelfLinkLoops(look, dest, c, links - 1); }
  }

  /** An absolute link starts again at the root. */
  lemma AbsoluteLinkRestarts(look: View, dest: Path, c: Comp, target: Path, links: nat)
    requires Plain(c) && look(dest + [c]) == Some(Link(Target(true, target))) && Canonical(look, target) && links > 0
    ensures Walk(look, dest, [c], links) == Found(target)
  {
    assert [c][1..] == [] && target + [] == target;
    WalkFixesCanonical(look, target, links - 1);
  }

  /** Nothing lies behind a file, and nothing behind what is missing. */
  lemma BehindFile(look: View, dest: Path, c: Comp, more: seq<Comp>, links: nat)
    requires Plain(c) && more != []
    ensures look(dest + [c]).Some? && look(dest + [c]).value.File? ==> Walk(look, dest, [c] + more, links).NotDir?
    ensures look(dest + [c]).None? ==> Walk(look, dest, [c] + more, links).NotExist?
  {
    assert ([c] + more)[1..] == more;
  }
}
