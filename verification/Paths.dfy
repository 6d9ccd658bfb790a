/** Lexical path processing: splitting and joining on '/', path cleaning as a
    component-stack machine, relative paths, and the archive-path filter of the
    installer. */
module Paths {
  import opened Wrappers
  import opened Text

  type Comp = string
  type Path = seq<Comp>

  predicate NoSlash(c: Comp) { '/' !in c }

  /** An ordinary component: what can name a directory entry. */
  predicate Plain(c: Comp) { c != "" && c != "." && c != ".." && NoSlash(c) }

  ghost predicate AllPlain(p: Path) { forall i :: 0 <= i < |p| ==> Plain(p[i]) }

  // ---------------------------------------------------------------- split and join

  function Split(s: string): (r: seq<string>)
    ensures |r| >= 1
    ensures forall i :: 0 <= i < |r| ==> NoSlash(r[i])
  {
    SplitOn(s, '/')
  }

  function Join(cs: seq<string>): string {
    if cs == [] then "" else if |cs| == 1 then cs[0] else cs[0] + "/" + Join(cs[1..])
  }

  predicate Contains(s: string, sub: string) {
    exists i :: 0 <= i <= |s| && sub <= s[i..]
  }

  function TrimPrefix(s: string, prefix: string): string {
    if prefix <= s then s[|prefix|..] else s
  }

  lemma SplitOfPlain(c: string)
    requires NoSlash(c)
    ensures Split(c) == [c]
  {
    SplitOnNone(c, '/');
  }

  lemma SplitAtSlash(a: string, b: string)
    ensures Split(a + "/" + b) == Split(a) + Split(b)
  {
    SplitOnAt(a, '/', b);
  }

  lemma {:induction false} SplitInvertsJoin(cs: seq<string>)
    requires cs != [] && forall i :: 0 <= i < |cs| ==> NoSlash(cs[i])
    ensures Split(Join(cs)) == cs
  {
    SplitOfPlain(cs[0]);
    if |cs| > 1 {
      SplitInvertsJoin(cs[1..]);
      SplitAtSlash(cs[0], Join(cs[1..]));
    }
  }

  /** Every component of a split text is a substring of it. */
  lemma {:induction false} ComponentIsSubstring(s: string, c: string)
    requires c in Split(s)
    ensures Contains(s, c)
  {
    var at := ComponentAt(s, c);
    assert c <= s[at..] by { assert s[at..][..|c|] == s[at..at + |c|]; }
  }

  lemma {:induction false} ComponentAt(s: string, c: string) returns (at: nat)
    requires c in Split(s)
    ensures at + |c| <= |s| && s[at..at + |c|] == c
    ensures Split(s)[0] == c ==> at == 0
  {
    if s == "" {
      at := 0;
    } else {
      var r := Split(s[1..]);
      var first := if s[0] == '/' then "" else [s[0]] + r[0];
      assert Split(s) == [first] + if s[0] == '/' then r else r[1..];
      if c == first {
        at := 0;
        if s[0] != '/' {
          var k := ComponentAt(s[1..], r[0]);
          assert s[0..|c|] == [s[0]] + s[1..][0..|r[0]|];
        }
      } else {
        assert c in r;
        var k := ComponentAt(s[1..], c);
        at := k + 1;
        assert s[1..][k..k + |c|] == s[at..at + |c|];
      }
    }
  }

  // ---------------------------------------------------------------- clean

  predicate Rooted(s: string) { s != "" && s[0] == '/' }

  /** filepath.Clean's stack: empty and "." components vanish, ".." pops an ordinary
      component, is dropped at the root and is kept in front of a relative path. */
  function CleanStep(rooted: bool, stack: Path, c: string): Path {
    if c == "" || c == "." then stack
    else if c != ".." then stack + [c]
    else if stack != [] && stack[|stack| - 1] != ".." then stack[..|stack| - 1]
    else if rooted then stack
    else stack + [c]
  }

  function CleanComps(rooted: bool, stack: Path, rest: seq<string>): Path
    decreases rest
  {
    if rest == [] then stack else CleanComps(rooted, CleanStep(rooted, stack, rest[0]), rest[1..])
  }

  function CleanStack(s: string): Path { CleanComps(Rooted(s), [], Split(s)) }

  function Clean(s: string): string {
    var st := CleanStack(s);
    if Rooted(s) then "/" + Join(st) else if st == [] then "." else Join(st)
  }

  /** What the stack can look like: parent components only in front, and none at all
      under a root. */
  ghost predicate CleanForm(rooted: bool, st: Path) {
    && (forall i :: 0 <= i < |st| ==> Plain(st[i]) || (!rooted && st[i] == ".."))
    && (forall i, j :: 0 <= i < j < |st| && st[j] == ".." ==> st[i] == "..")
  }

  lemma {:induction false} CleanCompsForm(rooted: bool, stack: Path, rest: seq<string>)
    requires CleanForm(rooted, stack)
    requires forall i :: 0 <= i < |rest| ==> NoSlash(rest[i])
    ensures CleanForm(rooted, CleanComps(rooted, stack, rest))
    decreases rest
  {
    if rest != [] {
      CleanCompsForm(rooted, CleanStep(rooted, stack, rest[0]), rest[1..]);
    }
  }

  /** A stack already in clean form is what the machine leaves in place. */
  lemma {:induction false} CleanCompsKeeps(rooted: bool, stack: Path, rest: Path)
    requires CleanForm(rooted, stack + rest)
    ensures CleanComps(rooted, stack, rest) == stack + rest
    decreases rest
  {
    if rest == [] {
      assert stack + rest == stack;
    } else {
      var c := rest[0];
      assert (stack + rest)[|stack|] == c;
      if c == ".." && stack != [] {
        assert (stack + rest)[|stack| - 1] == stack[|stack| - 1] == "..";
      }
      assert stack + [c] + rest[1..] == stack + rest;
      CleanCompsKeeps(rooted, stack + [c], rest[1..]);
    }
  }

  lemma {:induction false} JoinFirst(cs: seq<string>)
    requires cs != []
    ensures cs[0] <= Join(cs)
    ensures |cs| > 1 ==> |Join(cs)| > |cs[0]| && Join(cs)[|cs[0]|] == '/'
  {}

  lemma CleanStackForm(s: string)
    ensures CleanForm(Rooted(s), CleanStack(s))
  {
    CleanCompsForm(Rooted(s), [], Split(s));
  }

  lemma RootedReadsBack(st: Path)
    requires CleanForm(true, st)
    ensures Rooted("/" + Join(st)) && CleanStack("/" + Join(st)) == st
  {
    var s := "/" + Join(st);
    SplitAtSlash("", Join(st));
    assert s == "" + "/" + Join(st) && Split("") == [""];
    var rest := Split(Join(st));
    assert Split(s) == [""] + rest && ([""] + rest)[1..] == rest;
    assert CleanComps(true, [], [""] + rest) == CleanComps(true, [], rest);
    if st == [] {
      assert rest == [""] && [""][1..] == [];
      assert CleanComps(true, [], [""]) == CleanComps(true, [], []) == [];
    } else {
      SplitInvertsJoin(st);
      assert [] + st == st;
      CleanCompsKeeps(true, [], st);
    }
  }

  lemma RelativeReadsBack(st: Path)
    requires CleanForm(false, st) && st != []
    ensures !Rooted(Join(st)) && CleanStack(Join(st)) == st
  {
    SplitInvertsJoin(st);
    JoinFirst(st);
    assert [] + st == st;
    CleanCompsKeeps(false, [], st);
  }

  /** Cleaning reads back as the stack it printed. */
  lemma CleanReadsBack(s: string)
    ensures Rooted(Clean(s)) == Rooted(s)
    ensures CleanStack(Clean(s)) == CleanStack(s)
  {
    var st := CleanStack(s);
    CleanStackForm(s);
    if Rooted(s) {
      RootedReadsBack(st);
    } else if st == [] {
      SplitOfPlain(".");
    } else {
      RelativeReadsBack(st);
    }
  }

  /** filepath.Clean is idempotent. */
  lemma CleanIdempotent(s: string)
    ensures Clean(Clean(s)) == Clean(s)
  {
    CleanReadsBack(s);
  }

  lemma TrimPrefixExactly(s: string, prefix: string)
    ensures prefix <= s ==> s == prefix + TrimPrefix(s, prefix)
    ensures !(prefix <= s) ==> TrimPrefix(s, prefix) == s
  {}

  lemma {:induction false} CleanCompsConcat(rooted: bool, stack: Path, a: seq<string>, b: seq<string>)
    ensures CleanComps(rooted, stack, a + b) == CleanComps(rooted, CleanComps(rooted, stack, a), b)
    decreases a
  {
    if a == [] {
      assert a + b == b;
    } else {
      assert (a + b)[1..] == a[1..] + b && (a + b)[0] == a[0];
      CleanCompsConcat(rooted, CleanStep(rooted, stack, a[0]), a[1..], b);
    }
  }

  /** What a relative path leads to from an absolute directory. */
  function From(dir: Path, rest: seq<string>): Path { CleanComps(true, dir, rest) }

  lemma FromSnoc(dir: Path, stack: Path, c: string)
    ensures From(dir, stack + [c]) == CleanStep(true, From(dir, stack), c)
  {
    CleanCompsConcat(true, dir, stack, [c]);
    assert [c][1..] == [];
  }

  /** One step of the machine means what the component means. */
  lemma CleanStepMeans(dir: Path, stack: Path, c: string)
    requires CleanForm(false, stack)
    ensures From(dir, CleanStep(false, stack, c)) == CleanStep(true, From(dir, stack), c)
  {
    FromSnoc(dir, stack, c);
    if c == ".." && stack != [] && stack[|stack| - 1] != ".." {
      var front, last := stack[..|stack| - 1], stack[|stack| - 1];
      assert stack == front + [last] && Plain(last);
      FromSnoc(dir, front, last);
      PopsPush(From(dir, front), last);
    }
  }

  lemma PopsPush(dir: Path, c: string)
    requires Plain(c)
    ensures CleanStep(true, CleanStep(true, dir, c), "..") == dir
  {
    assert (dir + [c])[..|dir|] == dir;
  }

  lemma {:induction false} CleanCompsMeans(dir: Path, stack: Path, rest: seq<string>)
    requires CleanForm(false, stack) && forall i :: 0 <= i < |rest| ==> NoSlash(rest[i])
    ensures From(dir, CleanComps(false, stack, rest)) == From(From(dir, stack), rest)
    decreases rest
  {
    if rest != [] {
      CleanStepMeans(dir, stack, rest[0]);
      CleanStepForm(false, stack, rest[0]);
      CleanCompsMeans(dir, CleanStep(false, stack, rest[0]), rest[1..]);
    }
  }

  lemma CleanStepForm(rooted: bool, stack: Path, c: string)
    requires CleanForm(rooted, stack) && NoSlash(c)
    ensures CleanForm(rooted, CleanStep(rooted, stack, c))
  {}

  /** Cleaning a relative path does not change where it leads, from any directory. */
  lemma CleanKeepsMeaning(s: string, dir: Path)
    requires !Rooted(s)
    ensures From(dir, CleanStack(s)) == From(dir, Split(s))
  {
    CleanCompsMeans(dir, [], Split(s));
  }

  // ---------------------------------------------------------------- archive paths

  function SafeArchivePath(name: string): Result<string, string> {
    var clean := Clean(TrimPrefix(name, "./"));
    if clean == "." || Rooted(clean) || ".." <= clean || Contains(clean, "/../") || '\0' in clean
    then Err("unsafe archive path")
    else Ok(clean)
  }

  /** What an accepted archive path is made of. */
  ghost predicate SafeComps(p: Path) { p != [] && AllPlain(p) && !(".." <= p[0]) }

  lemma {:induction false} InnerParentIsComponent(s: string)
    requires Contains(s, "/../")
    ensures ".." in Split(s)
  {
    var i :| 0 <= i <= |s| && "/../" <= s[i..];
    assert s[i..i + 4] == s[i..][..4] == "/../";
    var a, b := s[..i], s[i + 4..];
    assert s == a + "/" + (".." + "/" + b) by {
      assert s == s[..i] + s[i..i + 4] + s[i + 4..];
      assert "/../" == "/" + ".." + "/";
    }
    SplitAtSlash(a, ".." + "/" + b);
    SplitAtSlash("..", b);
    SplitOfPlain("..");
    var r := Split(s);
    assert r[|Split(a)|] == "..";
  }

  /** The string tests of the filter, read on the component stack: the name is taken
      exactly when it is relative, not empty once cleaned, does not begin with two
      dots and holds no NUL. The test for an inner "/../" never decides. */
  lemma SafeArchivePathExact(name: string)
    ensures var t := TrimPrefix(name, "./"); var st := CleanStack(t);
            SafeArchivePath(name).Ok? <==>
              !Rooted(t) && st != [] && !(".." <= st[0]) && '\0' !in Join(st)
    ensures SafeArchivePath(name).Ok? ==>
              var p := SafeArchivePath(name).value;
              var st := CleanStack(TrimPrefix(name, "./"));
              SafeComps(st) && p == Join(st) && Split(p) == st
  {
    var t := TrimPrefix(name, "./");
    var st := CleanStack(t);
    var clean := Clean(t);
    CleanStackForm(t);
    CleanReadsBack(t);
    if !Rooted(t) && st != [] {
      JoinFirst(st);
      SplitInvertsJoin(st);
      assert clean == Join(st);
      assert clean != "." by { if clean == "." { SplitOfPlain("."); } }
      assert ".." <= clean <==> ".." <= st[0];
      if !(".." <= st[0]) {
        assert AllPlain(st);
        if Contains(clean, "/../") { InnerParentIsComponent(clean); assert false; }
      }
    }
  }

  /** The filter is a fixpoint on its own output. */
  lemma SafeArchivePathFixpoint(name: string)
    requires SafeArchivePath(name).Ok?
    ensures SafeArchivePath(SafeArchivePath(name).value) == SafeArchivePath(name)
  {
    SafeArchivePathExact(name);
    var p := SafeArchivePath(name).value;
    var st := CleanStack(TrimPrefix(name, "./"));
    JoinFirst(st);
    assert !("./" <= p);
    CleanReadsBack(TrimPrefix(name, "./"));
  }

  // ---------------------------------------------------------------- relative paths

  function CommonPrefix(a: Path, b: Path): (n: nat)
    ensures n <= |a| && n <= |b| && a[..n] == b[..n]
    ensures n < |a| && n < |b| ==> a[n] != b[n]
  {
    if a != [] && b != [] && a[0] == b[0] then
      var n := CommonPrefix(a[1..], b[1..]);
      assert a[..n + 1] == [a[0]] + a[1..][..n] && b[..n + 1] == [b[0]] + b[1..][..n];
      n + 1
    else 0
  }

  function Parents(n: nat): (r: Path)
    ensures |r| == n && forall i :: 0 <= i < n ==> r[i] == ".."
  {
    seq(n, i => "..")
  }

  /** filepath.Rel between two clean absolute paths. The empty result is printed ".". */
  function Rel(base: Path, target: Path): Path {
    var n := CommonPrefix(base, target);
    Parents(|base| - n) + target[n..]
  }

  lemma {:induction false} ParentsPop(stack: Path, n: nat, rest: Path)
    requires n <= |stack| && AllPlain(stack)
    ensures CleanComps(true, stack, Parents(n) + rest) == CleanComps(true, stack[..|stack| - n], rest)
    decreases n
  {
    var all := Parents(n) + rest;
    if n == 0 {
      assert all == rest && stack[..|stack|] == stack;
    } else {
      var next := stack[..|stack| - 1];
      assert all[0] == ".." && all[1..] == Parents(n - 1) + rest;
      assert CleanStep(true, stack, "..") == next;
      ParentsPop(next, n - 1, rest);
      assert next[..|next| - (n - 1)] == stack[..|stack| - n];
    }
  }

  /** Joining a base with the relative path computed from it gives the target back. */
  lemma RelRoundTrip(base: Path, target: Path)
    requires AllPlain(base) && AllPlain(target)
    ensures CleanComps(true, base, Rel(base, target)) == target
  {
    var n := CommonPrefix(base, target);
    ParentsPop(base, |base| - n, target[n..]);
    SharedStart(base, target, n);
    CleanCompsKeeps(true, base[..n], target[n..]);
  }

  lemma SharedStart(base: Path, target: Path, n: nat)
    requires AllPlain(base) && AllPlain(target) && n <= |base| && n <= |target| && base[..n] == target[..n]
    ensures base[..n] + target[n..] == target && CleanForm(true, target)
  {}
}
