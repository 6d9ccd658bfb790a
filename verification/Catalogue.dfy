/** The model catalogue: reading the agent's listing, filtering it by configuration, and
    resolving a requested model against it. */
module Catalogue {
  import opened Wrappers
  import opened Text
  import Paths

  datatype Model = Model(id: string, name: string)

  datatype Config = Config(enabled: bool, prefix: string, allowed: seq<string>, denied: seq<string>,
    excluded: seq<string>, ttl: int)

  function Key(m: Model): string { Lower(m.id) }

  // ---------------------------------------------------------------- reading the listing

  /** The first occurrence of a separator, or -1. */
  function Index(s: string, sub: string): (i: int)
    ensures -1 <= i <= |s| && (i >= 0 ==> sub <= s[i..])
  {
    if sub <= s then 0
    else if s == "" then -1
    else var i := Index(s[1..], sub); if i < 0 then -1 else i + 1
  }

  function ParseLine(raw: string): Option<Model> {
    var line := TrimSpace(raw);
    var at := Index(line, " - ");
    if line == "" || EqualFold(line, "available models") || at < 0 then None
    else
      var id, name := TrimSpace(line[..at]), TrimSpace(line[at + 3..]);
      if id == "" || ' ' in id || '\t' in id || '/' in id then None else Some(Model(id, name))
  }

  function Keys(ms: seq<Model>): set<string> { set m | m in ms :: Key(m) }

  /** First occurrences, in the order of the listing. */
  function Firsts(lines: seq<string>): seq<Model> {
    if lines == [] then []
    else
      var front := Firsts(lines[..|lines| - 1]);
      match ParseLine(lines[|lines| - 1])
      case None => front
      case Some(m) => if Key(m) in Keys(front) then front else front + [m]
  }

  /** Stable insertion by key. */
  function Insert(m: Model, ms: seq<Model>): seq<Model> {
    if ms == [] then [m]
    else if Less(Key(m), Key(ms[0])) then [m] + ms
    else [ms[0]] + Insert(m, ms[1..])
  }

  function Sorted(ms: seq<Model>): seq<Model> {
    if ms == [] then [] else Insert(ms[|ms| - 1], Sorted(ms[..|ms| - 1]))
  }

  function Parse(output: string): seq<Model> { Sorted(Firsts(SplitOn(output, '\n'))) }

  /** parseModelLines: the loop over the lines and the sort. */
  method ParseModelLines(output: string) returns (models: seq<Model>)
    ensures models == Parse(output)
  {
    var lines := SplitOn(output, '\n');
    var seen: set<string> := {};
    var found: seq<Model> := [];
    for i := 0 to |lines|
      invariant found == Firsts(lines[..i]) && seen == Keys(found)
    {
      FirstsMore(lines, i);
      var m := ParseLine(lines[i]);
      if m.Some? && Key(m.value) !in seen {
        KeysSnoc(found, m.value);
        seen := seen + {Key(m.value)};
        found := found + [m.value];
      }
    }
    assert lines[..|lines|] == lines;
    models := SortByKey(found);
  }

  method SortByKey(found: seq<Model>) returns (models: seq<Model>)
    ensures models == Sorted(found)
  {
    models := [];
    for i := 0 to |found|
      invariant models == Sorted(found[..i])
    {
      assert found[..i + 1][..i] == found[..i];
      models := Insert(found[i], models);
    }
    assert found[..|found|] == found;
  }

  lemma FirstsMore(lines: seq<string>, i: nat)
    requires i < |lines|
    ensures var front := Firsts(lines[..i]);
            Firsts(lines[..i + 1]) == match ParseLine(lines[i])
                                      case None => front
                                      case Some(m) => if Key(m) in Keys(front) then front else front + [m]
  {
    assert lines[..i + 1][..i] == lines[..i];
  }

  lemma KeysSnoc(ms: seq<Model>, m: Model)
    ensures Keys(ms + [m]) == Keys(ms) + {Key(m)}
  {
    forall x ensures x in Keys(ms + [m]) <==> x in Keys(ms) || x == Key(m) {
      if x in Keys(ms) { var k :| k in ms && Key(k) == x; assert k in ms + [m]; }
      if x == Key(m) { assert m in ms + [m]; }
    }
  }

  // ---------------------------------------------------------------- what the listing is read as

  ghost predicate StrictlySorted(ms: seq<Model>) {
    forall i, j :: 0 <= i < j < |ms| ==> Less(Key(ms[i]), Key(ms[j]))
  }

  ghost predicate DistinctKeys(ms: seq<Model>) {
    forall i, j :: 0 <= i < j < |ms| ==> Key(ms[i]) != Key(ms[j])
  }

  /** A listing line counts when no earlier line reads as the same model name. */
  ghost predicate FirstAt(lines: seq<string>, i: nat, m: Model)
    requires i < |lines|
  {
    && ParseLine(lines[i]) == Some(m)
    && forall j :: 0 <= j < i && ParseLine(lines[j]).Some? ==> Key(ParseLine(lines[j]).value) != Key(m)
  }

  /** Every name that was read is among the first occurrences, once. */
  lemma {:induction false} FirstsCover(lines: seq<string>)
    ensures DistinctKeys(Firsts(lines))
    ensures forall j :: 0 <= j < |lines| && ParseLine(lines[j]).Some? ==>
            Key(ParseLine(lines[j]).value) in Keys(Firsts(lines))
  {
    if lines != [] {
      var front := lines[..|lines| - 1];
      FirstsCover(front);
      var had, now := Firsts(front), Firsts(lines);
      forall j | 0 <= j < |lines| && ParseLine(lines[j]).Some? ensures Key(ParseLine(lines[j]).value) in Keys(now) {
        if j < |front| {
          assert lines[j] == front[j];
          var k :| k in had && Key(k) == Key(ParseLine(lines[j]).value);
          assert k in now;
        } else if now != had {
          assert now[|had|] in now;
        }
      }
      if now != had { AppendDistinct(had, now[|had|]); }
    }
  }

  lemma AppendDistinct(ms: seq<Model>, m: Model)
    requires DistinctKeys(ms) && Key(m) !in Keys(ms)
    ensures DistinctKeys(ms + [m])
  {
    forall i | 0 <= i < |ms| ensures Key(ms[i]) != Key(m) { assert ms[i] in ms; }
  }

  ghost predicate FirstIn(lines: seq<string>, m: Model) { exists i :: 0 <= i < |lines| && FirstAt(lines, i, m) }

  ghost predicate FirstsAreExact(lines: seq<string>) { forall m :: m in Firsts(lines) <==> FirstIn(lines, m) }

  lemma {:induction false} FirstsExact(lines: seq<string>)
    ensures FirstsAreExact(lines)
  {
    if lines != [] {
      FirstsExact(lines[..|lines| - 1]);
      forall m ensures m in Firsts(lines) <==> FirstIn(lines, m) { FirstsStep(lines, m); }
    }
  }

  /** A name not met before is first where it stands. */
  lemma NewIsFirst(lines: seq<string>, m: Model)
    requires lines != [] && ParseLine(lines[|lines| - 1]) == Some(m)
    requires Key(m) !in Keys(Firsts(lines[..|lines| - 1]))
    ensures FirstAt(lines, |lines| - 1, m)
  {
    var front := lines[..|lines| - 1];
    FirstsCover(front);
    forall j | 0 <= j < |lines| - 1 && ParseLine(lines[j]).Some? ensures Key(ParseLine(lines[j]).value) != Key(m) {
      assert lines[j] == front[j];
    }
  }

  lemma OldIsNotFirst(lines: seq<string>, m: Model, k: Model, j: nat)
    requires j < |lines| - 1 && ParseLine(lines[j]) == Some(k) && Key(k) == Key(m)
    ensures !FirstAt(lines, |lines| - 1, m)
  {}

  lemma FirstAtPrefix(lines: seq<string>, i: nat, m: Model)
    requires i < |lines| - 1
    ensures FirstAt(lines[..|lines| - 1], i, m) <==> FirstAt(lines, i, m)
  {
    var front := lines[..|lines| - 1];
    assert front[i] == lines[i];
    if FirstAt(front, i, m) {
      forall j | 0 <= j < i && ParseLine(lines[j]).Some? ensures Key(ParseLine(lines[j]).value) != Key(m) {
        assert front[j] == lines[j];
      }
    }
    if FirstAt(lines, i, m) {
      forall j | 0 <= j < i && ParseLine(front[j]).Some? ensures Key(ParseLine(front[j]).value) != Key(m) {
        assert front[j] == lines[j];
      }
    }
  }

  lemma FirstInPrefix(lines: seq<string>, m: Model)
    requires lines != []
    ensures FirstIn(lines, m) <==> FirstIn(lines[..|lines| - 1], m) || FirstAt(lines, |lines| - 1, m)
  {
    var front := lines[..|lines| - 1];
    if FirstIn(lines, m) {
      var i :| 0 <= i < |lines| && FirstAt(lines, i, m);
      if i < |front| { FirstAtPrefix(lines, i, m); }
    }
    if FirstIn(front, m) {
      var i :| 0 <= i < |front| && FirstAt(front, i, m);
      FirstAtPrefix(lines, i, m);
    }
  }

  /** The last line counts exactly when its name is not among the earlier ones. */
  lemma LastIsFirst(lines: seq<string>, m: Model)
    requires lines != [] && ParseLine(lines[|lines| - 1]) == Some(m)
    requires FirstsAreExact(lines[..|lines| - 1])
    ensures FirstAt(lines, |lines| - 1, m) <==> Key(m) !in Keys(Firsts(lines[..|lines| - 1]))
  {
    var front := lines[..|lines| - 1];
    if Key(m) !in Keys(Firsts(front)) {
      NewIsFirst(lines, m);
    } else {
      var k :| k in Firsts(front) && Key(k) == Key(m);
      var j :| 0 <= j < |front| && FirstAt(front, j, k);
      assert lines[j] == front[j];
      OldIsNotFirst(lines, m, k, j);
    }
  }

  lemma FirstsStep(lines: seq<string>, m: Model)
    requires lines != []
    requires FirstsAreExact(lines[..|lines| - 1])
    ensures m in Firsts(lines) <==> FirstIn(lines, m)
  {
    FirstInPrefix(lines, m);
    if ParseLine(lines[|lines| - 1]) == Some(m) { LastIsFirst(lines, m); }
  }

  lemma {:induction false} InsertKeeps(m: Model, ms: seq<Model>)
    ensures multiset(Insert(m, ms)) == multiset(ms) + multiset{m}
  {
    if ms != [] {
      InsertKeeps(m, ms[1..]);
      assert ms == [ms[0]] + ms[1..];
    }
  }

  lemma {:induction false} InsertSorted(m: Model, ms: seq<Model>)
    requires StrictlySorted(ms) && forall k :: k in ms ==> Key(k) != Key(m)
    ensures StrictlySorted(Insert(m, ms))
  {
    if ms != [] {
      LessTotal(Key(m), Key(ms[0]));
      if Less(Key(m), Key(ms[0])) {
        forall j | 0 <= j < |ms| ensures Less(Key(m), Key(ms[j])) {
          if j > 0 { LessTrans(Key(m), Key(ms[0]), Key(ms[j])); }
        }
      } else {
        InsertSorted(m, ms[1..]);
        var r := Insert(m, ms[1..]);
        InsertKeeps(m, ms[1..]);
        forall j | 0 <= j < |r| ensures Less(Key(ms[0]), Key(r[j])) {
          assert r[j] in multiset(r);
          if r[j] != m { assert r[j] in ms[1..]; }
        }
      }
    }
  }

  lemma LastIsNew(ms: seq<Model>, others: seq<Model>)
    requires ms != [] && DistinctKeys(ms) && multiset(others) == multiset(ms[..|ms| - 1])
    ensures forall k :: k in others ==> Key(k) != Key(ms[|ms| - 1])
  {
    forall k | k in others ensures Key(k) != Key(ms[|ms| - 1]) {
      assert k in multiset(others) && k in multiset(ms[..|ms| - 1]);
      var i :| 0 <= i < |ms| - 1 && ms[..|ms| - 1][i] == k;
      assert ms[i] == k;
    }
  }

  lemma MultisetSnoc(ms: seq<Model>)
    requires ms != []
    ensures multiset(ms) == multiset(ms[..|ms| - 1]) + multiset{ms[|ms| - 1]}
  {
    assert ms == ms[..|ms| - 1] + [ms[|ms| - 1]];
  }

  lemma {:induction false} SortedSorts(ms: seq<Model>)
    requires DistinctKeys(ms)
    ensures StrictlySorted(Sorted(ms)) && multiset(Sorted(ms)) == multiset(ms)
  {
    if ms != [] {
      var front, last := ms[..|ms| - 1], ms[|ms| - 1];
      SortedSorts(front);
      LastIsNew(ms, Sorted(front));
      InsertSorted(last, Sorted(front));
      InsertKeeps(last, Sorted(front));
      MultisetSnoc(ms);
    }
  }

  lemma SortedMembers(ms: seq<Model>, m: Model)
    requires DistinctKeys(ms)
    ensures m in Sorted(ms) <==> m in ms
  {
    SortedSorts(ms);
    assert m in Sorted(ms) <==> m in multiset(Sorted(ms));
    assert m in ms <==> m in multiset(ms);
  }

  /** Reading a listing gives model names in strictly increasing order under case folding,
      and exactly the first occurrence of each. */
  lemma ParseExact(output: string)
    ensures StrictlySorted(Parse(output))
    ensures forall m :: m in Parse(output) <==> FirstIn(SplitOn(output, '\n'), m)
  {
    var lines := SplitOn(output, '\n');
    FirstsCover(lines);
    SortedSorts(Firsts(lines));
    forall m ensures m in Parse(output) <==> FirstIn(lines, m) {
      FirstsExact(lines);
      SortedMembers(Firsts(lines), m);
    }
  }

  /** These two facts leave no choice: a strictly sorted list is determined by its
      elements. */
  lemma {:induction false} StrictlySortedUnique(a: seq<Model>, b: seq<Model>)
    requires StrictlySorted(a) && StrictlySorted(b) && forall m :: m in a <==> m in b
    ensures a == b
  {
    assert a == [] || a[0] in a;
    assert b == [] || b[0] in b;
    if a != [] {
      assert a[0] in b && b != [];
      assert b[0] in a;
      var i :| 0 <= i < |b| && b[i] == a[0];
      var j :| 0 <= j < |a| && a[j] == b[0];
      LessTotal(Key(a[0]), Key(b[0]));
      assert a[0] == b[0];
      forall m ensures m in a[1..] <==> m in b[1..] {
        TailMember(a, m);
        TailMember(b, m);
      }
      StrictlySortedUnique(a[1..], b[1..]);
      assert a == [a[0]] + a[1..] && b == [b[0]] + b[1..];
    }
  }

  lemma TailMember(a: seq<Model>, m: Model)
    requires a != [] && StrictlySorted(a)
    ensures m in a[1..] <==> m in a && m != a[0]
  {
    if m in a[1..] {
      var i :| 0 <= i < |a[1..]| && a[1..][i] == m;
      LessTotal(Key(a[0]), Key(a[i + 1]));
    }
    if m in a && m != a[0] {
      var i :| 0 <= i < |a| && a[i] == m;
      assert a[1..][i - 1] == m;
    }
  }

  // ---------------------------------------------------------------- filtering

  function Stripped(cfg: Config, s: string): string { Lower(Paths.TrimPrefix(s, cfg.prefix)) }

  /** Allowed when the list is empty or names it, not denied, not under an excluded
      prefix. */
  predicate Keeps(cfg: Config, m: Model) {
    && (cfg.allowed == [] || exists a :: a in cfg.allowed && Stripped(cfg, a) == Key(m))
    && (forall x :: x in cfg.denied ==> Stripped(cfg, x) != Key(m))
    && (forall p :: p in cfg.excluded ==> !(Lower(p) <= Key(m)))
  }

  function Filter(ms: seq<Model>, cfg: Config): seq<Model> {
    if ms == [] then []
    else
      var last := ms[|ms| - 1];
      Filter(ms[..|ms| - 1], cfg) + if Keeps(cfg, last) then [last] else []
  }

  method FoldedSet(cfg: Config, names: seq<string>) returns (r: set<string>)
    ensures forall k :: k in r <==> exists n :: n in names && Stripped(cfg, n) == k
  {
    r := {};
    for i := 0 to |names|
      invariant forall k :: k in r <==> exists n :: n in names[..i] && Stripped(cfg, n) == k
    {
      ghost var was := r;
      r := r + {Stripped(cfg, names[i])};
      forall k ensures k in r <==> exists n :: n in names[..i + 1] && Stripped(cfg, n) == k {
        if k in was { var n :| n in names[..i] && Stripped(cfg, n) == k; assert n in names[..i + 1]; }
        if k == Stripped(cfg, names[i]) { assert names[i] in names[..i + 1]; }
        if n :| n in names[..i + 1] && Stripped(cfg, n) == k {
          if n != names[i] { assert n in names[..i]; }
        }
      }
    }
    assert names[..|names|] == names;
  }

  /** filterCursorModels */
  method FilterCursorModels(models: seq<Model>, cfg: Config) returns (out: seq<Model>)
    ensures out == Filter(models, cfg)
  {
    var allowed := FoldedSet(cfg, cfg.allowed);
    var denied := FoldedSet(cfg, cfg.denied);
    assert allowed != {} <==> cfg.allowed != [] by {
      if cfg.allowed != [] { assert Stripped(cfg, cfg.allowed[0]) in allowed; }
      if allowed != {} { var k :| k in allowed; var n :| n in cfg.allowed && Stripped(cfg, n) == k; }
    }
    out := [];
    for i := 0 to |models|
      invariant out == Filter(models[..i], cfg)
    {
      assert models[..i + 1][..i] == models[..i];
      var m := models[i];
      var key := Key(m);
      if allowed != {} && key !in allowed { continue; }
      if key in denied {
        var x :| x in cfg.denied && Stripped(cfg, x) == key;
        continue;
      }
      var hit := HasExcludedPrefix(cfg, key);
      if !hit { out := out + [m]; }
    }
    assert models[..|models|] == models;
  }

  method HasExcludedPrefix(cfg: Config, key: string) returns (hit: bool)
    ensures hit <==> exists p :: p in cfg.excluded && Lower(p) <= key
  {
    for i := 0 to |cfg.excluded|
      invariant forall j :: 0 <= j < i ==> !(Lower(cfg.excluded[j]) <= key)
    {
      if Lower(cfg.excluded[i]) <= key { return true; }
    }
    return false;
  }

  lemma {:induction false} FilterMembers(ms: seq<Model>, cfg: Config, m: Model)
    ensures m in Filter(ms, cfg) <==> m in ms && Keeps(cfg, m)
  {
    if ms != [] {
      var front, last := ms[..|ms| - 1], ms[|ms| - 1];
      FilterMembers(front, cfg, m);
      assert ms == front + [last];
    }
  }

  lemma {:induction false} FilterSorted(ms: seq<Model>, cfg: Config)
    requires StrictlySorted(ms)
    ensures StrictlySorted(Filter(ms, cfg))
  {
    if ms != [] {
      var front, last := ms[..|ms| - 1], ms[|ms| - 1];
      FilterSorted(front, cfg);
      var f := Filter(front, cfg);
      forall i | 0 <= i < |f| ensures Less(Key(f[i]), Key(last)) {
        FilterMembers(front, cfg, f[i]);
        var k :| 0 <= k < |front| && front[k] == f[i];
        assert Less(Key(ms[k]), Key(ms[|ms| - 1]));
      }
    }
  }

  /** Filtering keeps exactly the wanted models, and their order. */
  lemma FilterExact(ms: seq<Model>, cfg: Config)
    ensures forall m :: m in Filter(ms, cfg) <==> m in ms && Keeps(cfg, m)
    ensures StrictlySorted(ms) ==> StrictlySorted(Filter(ms, cfg))
  {
    forall m ensures m in Filter(ms, cfg) <==> m in ms && Keeps(cfg, m) { FilterMembers(ms, cfg, m); }
    if StrictlySorted(ms) { FilterSorted(ms, cfg); }
  }

  // ---------------------------------------------------------------- resolving

  /** The catalogue entry a request names, if any. */
  function Lookup(models: seq<Model>, wanted: string): Option<string> {
    if models == [] then None
    else if EqualFold(models[0].id, wanted) then Some(models[0].id)
    else Lookup(models[1..], wanted)
  }

  function Requested(cfg: Config, requested: string): string { TrimSpace(Paths.TrimPrefix(requested, cfg.prefix)) }

  datatype ResolveError = ModelRequired | ModelNotFound

  function Resolve(models: seq<Model>, cfg: Config, requested: string): Result<string, ResolveError> {
    var wanted := Requested(cfg, requested);
    if wanted == "" then Err(ModelRequired)
    else
      match Lookup(models, wanted)
      case Some(id) => Ok(id)
      case None => Err(ModelNotFound)
  }

  /** resolveModel, once the models are discovered. */
  method ResolveModel(models: seq<Model>, cfg: Config, requested: string) returns (r: Result<string, ResolveError>)
    ensures r == Resolve(models, cfg, requested)
  {
    var wanted := TrimSpace(Paths.TrimPrefix(requested, cfg.prefix));
    if wanted == "" { return Err(ModelRequired); }
    for i := 0 to |models|
      invariant Lookup(models, wanted) == Lookup(models[i..], wanted)
    {
      if EqualFold(models[i].id, wanted) { return Ok(models[i].id); }
    }
    return Err(ModelNotFound);
  }

  /** A request is answered with the name of a listed model it equals under case folding,
      and fails exactly when it names nothing or nothing listed. */
  lemma ResolveExact(models: seq<Model>, cfg: Config, requested: string)
    ensures var r := Resolve(models, cfg, requested); var wanted := Requested(cfg, requested);
            && (r == Err(ModelRequired) <==> wanted == "")
            && (r == Err(ModelNotFound) <==> wanted != "" && forall m :: m in models ==> !EqualFold(m.id, wanted))
            && (r.Ok? ==> exists m :: m in models && m.id == r.value && EqualFold(m.id, wanted))
  {
    LookupSound(models, Requested(cfg, requested));
  }

  lemma {:induction false} LookupFinds(models: seq<Model>, m: Model)
    requires m in models && DistinctKeys(models)
    ensures Lookup(models, m.id) == Some(m.id)
  {
    var k :| 0 <= k < |models| && models[k] == m;
    assert k > 0 ==> Key(models[0]) != Key(models[k]);
    if !EqualFold(models[0].id, m.id) {
      assert models[1..][k - 1] == m;
      LookupFinds(models[1..], m);
    }
  }

  lemma {:induction false} LookupSound(models: seq<Model>, wanted: string)
    ensures var r := Lookup(models, wanted);
            if r.Some? then exists m :: m in models && m.id == r.value && EqualFold(m.id, wanted)
            else forall m :: m in models ==> !EqualFold(m.id, wanted)
  {
    if models != [] && !EqualFold(models[0].id, wanted) {
      LookupSound(models[1..], wanted);
      assert forall m :: m in models <==> m == models[0] || m in models[1..];
    } else if models != [] {
      assert models[0] in models;
    }
  }

  /** Resolving any advertised name, prefix and all, against the list it was advertised
      from gives back exactly that model's own name. */
  lemma CatalogueRoundTrip(output: string, cfg: Config, m: Model)
    requires m in Filter(Parse(output), cfg)
    ensures Resolve(Filter(Parse(output), cfg), cfg, cfg.prefix + m.id) == Ok(m.id)
  {
    ParseExact(output);
    FilterExact(Parse(output), cfg);
    var models := Filter(Parse(output), cfg);
    var lines := SplitOn(output, '\n');
    var i :| 0 <= i < |lines| && FirstAt(lines, i, m);
    IdsAreTrimmed(lines[i]);
    TrimSpaceTrims(m.id);
    assert (cfg.prefix + m.id)[|cfg.prefix|..] == m.id;
    assert DistinctKeys(models) by {
      forall a, b | 0 <= a < b < |models| ensures Key(models[a]) != Key(models[b]) {
        LessTotal(Key(models[a]), Key(models[b]));
      }
    }
    LookupFinds(models, m);
  }

  lemma IdsAreTrimmed(raw: string)
    requires ParseLine(raw).Some?
    ensures Trimmed(ParseLine(raw).value.id) && ParseLine(raw).value.id != ""
  {
    var line := TrimSpace(raw);
    TrimSpaceTrims(line[..Index(line, " - ")]);
  }

  // ---------------------------------------------------------------- what is read, kept and asked for

  ghost predicate OccursAt(s: string, sub: string, i: int) { 0 <= i <= |s| && sub <= s[i..] }

  /** The index is that of the first occurrence, and -1 if there is none. */
  lemma {:induction false} IndexExactly(s: string, sub: string)
    ensures Index(s, sub) >= 0 ==> OccursAt(s, sub, Index(s, sub))
    ensures forall i :: 0 <= i < (if Index(s, sub) >= 0 then Index(s, sub) else |s| + 1) ==> !OccursAt(s, sub, i)
  {
    if !(sub <= s) && s != "" {
      IndexExactly(s[1..], sub);
      forall i | 0 < i <= |s| ensures OccursAt(s, sub, i) <==> OccursAt(s[1..], sub, i - 1) {
        assert s[i..] == s[1..][i - 1..];
      }
    }
  }

  /** A line made of a name, a dash between spaces, and a label. */
  ghost predicate Dashed(line: string, a: string, b: string) {
    line == a + " - " + b && forall i :: 0 <= i < |a| ==> !OccursAt(line, " - ", i)
  }

  /** What can be a name: something without a space, a tab or a slash. */
  predicate NameLike(id: string) { id != "" && ' ' !in id && '\t' !in id && '/' !in id }

  /** A line is read as a model if and only if, trimmed, it is no heading and its part before
      the first dash is a name; the label is what follows. */
  lemma ParseLineExactly(raw: string, m: Model)
    ensures ParseLine(raw) == Some(m) <==> exists a, b :: ReadsAs(TrimSpace(raw), a, b, m)
  {
    var line := TrimSpace(raw);
    if ParseLine(raw) == Some(m) { ReadLineSplits(raw, m); }
    if a, b :| ReadsAs(line, a, b, m) { DashAt(line, a, b); }
  }

  lemma ReadLineSplits(raw: string, m: Model)
    requires ParseLine(raw) == Some(m)
    ensures exists a, b :: ReadsAs(TrimSpace(raw), a, b, m)
  {
    var line := TrimSpace(raw);
    var at := Index(line, " - ");
    IndexExactly(line, " - ");
    SplitsAt(line, at);
    assert ReadsAs(line, line[..at], line[at + 3..], m);
  }

  lemma SplitsAt(line: string, at: nat)
    requires OccursAt(line, " - ", at)
    ensures at + 3 <= |line| && line == line[..at] + " - " + line[at + 3..]
  {
    assert line[at..] == " - " + line[at + 3..];
  }

  lemma DashAt(line: string, a: string, b: string)
    requires Dashed(line, a, b)
    ensures Index(line, " - ") == |a| && line[..|a|] == a && line[|a| + 3..] == b
  {
    IndexExactly(line, " - ");
    assert line[|a|..] == " - " + b;
    assert OccursAt(line, " - ", |a|);
  }

  ghost predicate ReadsAs(line: string, a: string, b: string, m: Model) {
    && !EqualFold(line, "available models") && Dashed(line, a, b)
    && m.id == TrimSpace(a) && NameLike(m.id) && m.name == TrimSpace(b)
  }

  /** Equal to the model's name under folding, without the prefix. */
  predicate Names(entry: string, cfg: Config, m: Model) { EqualFold(Paths.TrimPrefix(entry, cfg.prefix), m.id) }

  /** Filtering keeps a model if and only if the allow list is empty or has an entry that names
      it, the deny list has none, and its folded name begins with no folded excluded prefix. */
  lemma FilterMeans(ms: seq<Model>, cfg: Config, m: Model)
    ensures m in Filter(ms, cfg) <==>
            && m in ms
            && (|cfg.allowed| == 0 || exists i :: 0 <= i < |cfg.allowed| && Names(cfg.allowed[i], cfg, m))
            && (forall i :: 0 <= i < |cfg.denied| ==> !Names(cfg.denied[i], cfg, m))
            && (forall i :: 0 <= i < |cfg.excluded| ==> !(Lower(cfg.excluded[i]) <= Lower(m.id)))
  {
    FilterMembers(ms, cfg, m);
    AllowedMeans(cfg, m);
  }

  lemma AllowedMeans(cfg: Config, m: Model)
    ensures (exists a :: a in cfg.allowed && Stripped(cfg, a) == Key(m)) <==>
            exists i :: 0 <= i < |cfg.allowed| && Names(cfg.allowed[i], cfg, m)
    ensures (forall x :: x in cfg.denied ==> Stripped(cfg, x) != Key(m)) <==>
            forall i :: 0 <= i < |cfg.denied| ==> !Names(cfg.denied[i], cfg, m)
    ensures (forall p :: p in cfg.excluded ==> !(Lower(p) <= Key(m))) <==>
            forall i :: 0 <= i < |cfg.excluded| ==> !(Lower(cfg.excluded[i]) <= Lower(m.id))
  {
    if a :| a in cfg.allowed && Stripped(cfg, a) == Key(m) {
      var i :| 0 <= i < |cfg.allowed| && cfg.allowed[i] == a;
      assert Names(cfg.allowed[i], cfg, m);
    }
    forall i | 0 <= i < |cfg.allowed| ensures cfg.allowed[i] in cfg.allowed {}
    forall i | 0 <= i < |cfg.denied| ensures cfg.denied[i] in cfg.denied {}
    forall i | 0 <= i < |cfg.excluded| ensures cfg.excluded[i] in cfg.excluded {}
  }

  /** A request without the prefix is answered like one with it. */
  lemma PrefixIsOptional(models: seq<Model>, cfg: Config, requested: string)
    requires !(cfg.prefix <= requested)
    ensures Resolve(models, cfg, requested) == Resolve(models, cfg, cfg.prefix + requested)
  {
    assert (cfg.prefix + requested)[|cfg.prefix|..] == requested;
  }

  /** A listed model is found under its own name, in any case and with white space around, as
      long as the name does not happen to begin with the prefix. */
  lemma BareNameResolves(models: seq<Model>, cfg: Config, m: Model, requested: string)
    requires m in models && DistinctKeys(models) && !(cfg.prefix <= requested)
    requires EqualFold(m.id, TrimSpace(requested)) && m.id != ""
    ensures Resolve(models, cfg, requested) == Ok(m.id)
  {
    LookupAlike(models, m.id, TrimSpace(requested));
    LookupFinds(models, m);
  }

  lemma {:induction false} LookupAlike(models: seq<Model>, a: string, b: string)
    requires EqualFold(a, b)
    ensures Lookup(models, a) == Lookup(models, b)
  {
    if models != [] { LookupAlike(models[1..], a, b); }
  }
}
